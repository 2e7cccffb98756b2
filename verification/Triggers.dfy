/** The one-shot event a blocked receiver waits on (packages/core/src/Trigger.ts). Receivers wait on
    each trigger once; the object itself lets them wait again, which is modelled as well. */
module Triggers {
  import opened Basics

  datatype Event = NewQueueMessage(queueName: string) | Resumed(queueName: string)

  datatype Wake = ByEvent(event: Event) | Timeout

  /** A promise of `wait`: unresolved, due to be resolved by a zero-delay timer callback, or resolved. */
  datatype Promise = Pending | Scheduled(event: Event) | Settled(wake: Wake)

  /** `promises` are those of the waits that were not answered at once, in order; `waiting` is the one
      the field `resolve` would settle. */
  datatype TriggerState = TriggerState(waiting: Option<nat>, triggered: Option<Event>, promises: seq<Promise>)
  {
    /** The one wait there was can only go on when something else happens. */
    predicate Blocked() { promises == [Pending] && triggered.None? }

    /** No event has reached the trigger, and no wait on it has ended. */
    predicate Silent() { triggered.None? && (promises == [] || promises == [Pending]) }

    /** The wait has ended: answered at once, or settled since. */
    predicate Ended() { if promises == [] then triggered.Some? else promises[0].Settled? }

    predicate Consistent() {
      && (waiting.Some? ==>
            |promises| == waiting.value + 1 && promises[waiting.value].Pending? && triggered.None?)
      && (promises != [] && promises[0].Pending? ==> waiting == Some(0))
    }
  }

  const FreshTrigger := TriggerState(None, None, [])

  const AskedTrigger := TriggerState(Some(0), None, [Pending])

  /** A remembered event answers at once and stays remembered; a wait that is on refuses another. */
  function OnWait(s: TriggerState): TriggerState {
    if s.triggered.Some? || s.waiting.Some? then s
    else s.(waiting := Some(|s.promises|), promises := s.promises + [Pending])
  }

  function OnTrigger(s: TriggerState, e: Event): TriggerState {
    if s.waiting.None? then s.(triggered := Some(e))
    else if s.waiting.value < |s.promises|
    then s.(waiting := None, promises := s.promises[s.waiting.value := Scheduled(e)])
    else s.(waiting := None)
  }

  /** The timer of wait `k` runs out, or its caller aborts: both run the same callback, which also
      forgets whichever wait is on by then. */
  function OnTimeout(s: TriggerState, k: nat): TriggerState {
    if k >= |s.promises| then s
    else if s.promises[k].Settled? then s.(waiting := None)
    else s.(waiting := None, promises := s.promises[k := Settled(Timeout)])
  }

  function OnCallback(s: TriggerState, k: nat): TriggerState {
    if k < |s.promises| && s.promises[k].Scheduled?
    then s.(promises := s.promises[k := Settled(ByEvent(s.promises[k].event))])
    else s
  }

  datatype TriggerOp = DoWait | DoTrigger(event: Event) | TimerRunsOut(k: nat) | CallbackRuns(k: nat)

  function Act(s: TriggerState, op: TriggerOp): TriggerState {
    match op
    case DoWait => OnWait(s)
    case DoTrigger(e) => OnTrigger(s, e)
    case TimerRunsOut(k) => OnTimeout(s, k)
    case CallbackRuns(k) => OnCallback(s, k)
  }

  function ActAll(ops: seq<TriggerOp>): TriggerState {
    if ops == [] then FreshTrigger else Act(ActAll(ops[..|ops| - 1]), ops[|ops| - 1])
  }

  lemma {:induction false} ActAllConsistent(ops: seq<TriggerOp>)
    ensures ActAll(ops).Consistent()
  {
    if ops != [] {
      ActAllConsistent(ops[..|ops| - 1]);
    }
  }

  // ---- one wait

  predicate EverTriggered(ops: seq<TriggerOp>) {
    exists i | 0 <= i < |ops| :: ops[i].DoTrigger?
  }

  /** The first timer ran out after a wait. */
  predicate EverTimedOut(ops: seq<TriggerOp>) {
    exists i, j | 0 <= i < j < |ops| :: ops[i] == DoWait && ops[j] == TimerRunsOut(0)
  }

  lemma TriggeredSnoc(ops: seq<TriggerOp>, op: TriggerOp)
    ensures EverTriggered(ops + [op]) <==> EverTriggered(ops) || op.DoTrigger?
  {
    var all := ops + [op];
    if EverTriggered(ops) {
      var i :| 0 <= i < |ops| && ops[i].DoTrigger?;
      assert all[i].DoTrigger?;
    }
    if op.DoTrigger? {
      assert all[|ops|].DoTrigger?;
    }
  }

  lemma TimedOutSnoc(ops: seq<TriggerOp>, op: TriggerOp)
    ensures EverTimedOut(ops + [op]) <==> EverTimedOut(ops) || (op == TimerRunsOut(0) && DoWait in ops)
  {
    var all := ops + [op];
    if EverTimedOut(ops) {
      var i, j :| 0 <= i < j < |ops| && ops[i] == DoWait && ops[j] == TimerRunsOut(0);
      assert all[i] == DoWait && all[j] == TimerRunsOut(0);
    }
    if op == TimerRunsOut(0) && DoWait in ops {
      var i :| 0 <= i < |ops| && ops[i] == DoWait;
      assert all[i] == DoWait && all[|ops|] == TimerRunsOut(0);
    }
  }

  /** An event came before every wait. */
  predicate EventFirst(ops: seq<TriggerOp>) {
    exists i | 0 <= i < |ops| :: ops[i].DoTrigger? && DoWait !in ops[..i]
  }

  lemma EventFirstSnoc(ops: seq<TriggerOp>, op: TriggerOp)
    ensures EventFirst(ops + [op]) <==> EventFirst(ops) || (op.DoTrigger? && DoWait !in ops)
  {
    var all := ops + [op];
    if EventFirst(ops) {
      var i :| 0 <= i < |ops| && ops[i].DoTrigger? && DoWait !in ops[..i];
      assert all[i].DoTrigger? && all[..i] == ops[..i];
    }
    if op.DoTrigger? && DoWait !in ops {
      assert all[|ops|].DoTrigger? && all[..|ops|] == ops;
    }
    if EventFirst(all) {
      var i :| 0 <= i < |all| && all[i].DoTrigger? && DoWait !in all[..i];
      assert all[..i] == ops[..i];
      assert i == |ops| ==> ops[..i] == ops;
    }
  }

  /** The promise of the first wait, which there may not be. */
  predicate FirstPending(s: TriggerState) {
    s.promises != [] && s.promises[0].Pending?
  }

  /** No signal is lost, whether it comes before or after the wait: the first wait stays unresolved
      exactly when it was asked for and neither an event nor its timeout ever came. */
  lemma {:induction false} BlockedExactly(ops: seq<TriggerOp>)
    ensures FirstPending(ActAll(ops)) <==> DoWait in ops && !EverTriggered(ops) && !EverTimedOut(ops)
    ensures ActAll(ops).promises == [] <==> DoWait !in ops || EventFirst(ops)
    ensures ActAll(ops).promises == [] ==> (ActAll(ops).triggered.Some? <==> EverTriggered(ops))
  {
    if ops != [] {
      var n := |ops| - 1;
      assert ops == ops[..n] + [ops[n]];
      BlockedExactly(ops[..n]);
      ActAllConsistent(ops[..n]);
      TriggeredSnoc(ops[..n], ops[n]);
      TimedOutSnoc(ops[..n], ops[n]);
      EventFirstSnoc(ops[..n], ops[n]);
    }
  }

  // ---- several waits

  /** Operation `i` began wait `k`: it was neither answered at once nor refused. */
  predicate Begins(ops: seq<TriggerOp>, i: nat, k: nat) {
    && i < |ops| && ops[i] == DoWait
    && ActAll(ops[..i]).waiting.None? && ActAll(ops[..i]).triggered.None?
    && |ActAll(ops[..i]).promises| == k
  }

  /** Between the operations `i` and `n` the timer of an earlier wait ran out. */
  predicate CutOff(ops: seq<TriggerOp>, i: nat, n: nat, k: nat)
    requires n <= |ops|
  {
    exists l | i < l < n :: ops[l].TimerRunsOut? && ops[l].k < k
  }

  /** Every event since came after such a timer. */
  predicate EventsCutOff(ops: seq<TriggerOp>, i: nat, k: nat) {
    forall j | i < j < |ops| && ops[j].DoTrigger? :: CutOff(ops, i, j, k)
  }

  predicate OwnTimer(ops: seq<TriggerOp>, i: nat, k: nat) {
    exists j | i < j < |ops| :: ops[j] == TimerRunsOut(k)
  }

  lemma WaitSnoc(ops: seq<TriggerOp>, i: nat, k: nat, op: TriggerOp)
    requires i < |ops|
    ensures var all := ops + [op];
            && (CutOff(all, i, |all|, k) <==> CutOff(ops, i, |ops|, k) || (op.TimerRunsOut? && op.k < k))
            && (OwnTimer(all, i, k) <==> OwnTimer(ops, i, k) || op == TimerRunsOut(k))
            && (EventsCutOff(all, i, k) <==>
                  EventsCutOff(ops, i, k) && (op.DoTrigger? ==> CutOff(ops, i, |ops|, k)))
  {
    var all := ops + [op];
    assert all[|ops|] == op && forall j | 0 <= j < |ops| :: all[j] == ops[j];
    forall j | 0 <= j <= |ops| ensures CutOff(all, i, j, k) <==> CutOff(ops, i, j, k) {
      if CutOff(ops, i, j, k) {
        var l :| i < l < j && ops[l].TimerRunsOut? && ops[l].k < k;
        assert all[l] == ops[l];
      }
    }
    if CutOff(ops, i, |ops|, k) {
      var l :| i < l < |ops| && ops[l].TimerRunsOut? && ops[l].k < k;
      assert all[l] == ops[l];
    }
    if OwnTimer(ops, i, k) {
      var l :| i < l < |ops| && ops[l] == TimerRunsOut(k);
      assert all[l] == ops[l];
    }
    if EventsCutOff(all, i, k) {
      forall j | i < j < |ops| && ops[j].DoTrigger? ensures CutOff(ops, i, j, k) {
        assert all[j].DoTrigger?;
      }
    }
  }

  lemma PendingBegins(ops: seq<TriggerOp>, i: nat, k: nat)
    requires Begins(ops, i, k) && |ops| == i + 1
    ensures ActAll(ops).waiting == Some(k) && |ActAll(ops).promises| == k + 1 && ActAll(ops).promises[k].Pending?
    ensures !OwnTimer(ops, i, k) && EventsCutOff(ops, i, k) && !CutOff(ops, i, |ops|, k)
  {
  }

  /** What one operation makes of wait `k`, where `own`, `cut` and `late` tell whether its timer ran
      out, that of an earlier wait did, and whether all events came only after the latter. */
  lemma PendingStep(s: TriggerState, op: TriggerOp, k: nat, own: bool, cut: bool, late: bool)
    requires s.Consistent() && k < |s.promises|
    requires s.promises[k].Pending? <==> !own && late
    requires s.promises[k].Pending? ==> (s.waiting == Some(k) <==> !cut)
    ensures var s' := Act(s, op);
            && k < |s'.promises|
            && (s'.promises[k].Pending? <==> !own && op != TimerRunsOut(k) && late && (op.DoTrigger? ==> cut))
            && (s'.promises[k].Pending? ==> (s'.waiting == Some(k) <==> !cut && !(op.TimerRunsOut? && op.k < k)))
  {
  }

  /** Exactly when a wait stays unresolved, if a trigger is waited on again: its own timer has not run
      out, and every event since came only after the timer of an earlier wait had. */
  lemma {:induction false} StaysPendingExactly(ops: seq<TriggerOp>, i: nat, k: nat)
    requires Begins(ops, i, k)
    ensures k < |ActAll(ops).promises|
    ensures ActAll(ops).promises[k].Pending? <==> !OwnTimer(ops, i, k) && EventsCutOff(ops, i, k)
    ensures ActAll(ops).promises[k].Pending? ==>
              (ActAll(ops).waiting == Some(k) <==> !CutOff(ops, i, |ops|, k))
  {
    var n := |ops| - 1;
    if i < n {
      assert ops == ops[..n] + [ops[n]] && ops[..n][..i] == ops[..i];
      StaysPendingExactly(ops[..n], i, k);
      ActAllConsistent(ops[..n]);
      WaitSnoc(ops[..n], i, k, ops[n]);
      PendingStep(ActAll(ops[..n]), ops[n], k, OwnTimer(ops[..n], i, k), CutOff(ops[..n], i, n, k),
                  EventsCutOff(ops[..n], i, k));
    } else {
      PendingBegins(ops, i, k);
    }
  }

  lemma ActAllThen(ops: seq<TriggerOp>, op: TriggerOp)
    ensures ActAll(ops + [op]) == Act(ActAll(ops), op)
  {
    assert (ops + [op])[..|ops|] == ops;
  }

  /** The first timer, which nothing clears, runs out during a second wait: the event that comes then
      is remembered, but the second wait is not told. */
  lemma StaleTimerLosesEvent(e: Event)
    ensures var ops := [DoWait] + [DoTrigger(e)] + [CallbackRuns(0)] + [DoWait] + [TimerRunsOut(0)] + [DoTrigger(e)];
            ActAll(ops) == TriggerState(None, Some(e), [Settled(ByEvent(e)), Pending])
  {
    var one := [] + [DoWait];
    ActAllThen([], DoWait);
    ActAllThen(one, DoTrigger(e));
    ActAllThen(one + [DoTrigger(e)], CallbackRuns(0));
    var three := one + [DoTrigger(e)] + [CallbackRuns(0)];
    ActAllThen(three, DoWait);
    ActAllThen(three + [DoWait], TimerRunsOut(0));
    ActAllThen(three + [DoWait] + [TimerRunsOut(0)], DoTrigger(e));
  }

  // ---- the object

  datatype WaitAnswer = Immediately(event: Event) | Later | AlreadyWaiting

  class Trigger {
    /** Which promise `resolve` settles, while it is set. */
    var resolve: Option<nat>
    var triggered: Option<Event>
    var promises: seq<Promise>

    ghost function View(): TriggerState
      reads this
    {
      TriggerState(resolve, triggered, promises)
    }

    constructor ()
      ensures View() == FreshTrigger
    {
      resolve, triggered, promises := None, None, [];
    }

    /** Both `wait` and `waitUntil`; they differ only in how the timer is set. */
    method Wait() returns (r: WaitAnswer)
      modifies this
      ensures View() == OnWait(old(View()))
      ensures r == if old(triggered).Some? then Immediately(old(triggered).value)
                   else if old(resolve).Some? then AlreadyWaiting else Later
    {
      if triggered.Some? {
        return Immediately(triggered.value);
      }
      if resolve.Some? {
        return AlreadyWaiting;
      }
      resolve := Some(|promises|);
      promises := promises + [Pending];
      return Later;
    }

    method Trigger(e: Event)
      modifies this
      ensures View() == OnTrigger(old(View()), e)
    {
      if resolve.Some? {
        var k := resolve.value;
        resolve := None;
        if k < |promises| {
          promises := promises[k := Scheduled(e)];
        }
      } else {
        triggered := Some(e);
      }
    }

    /** The callback of the timer and of the abort signal of wait `k`. */
    method TimerCallback(k: nat)
      requires k < |promises|
      modifies this
      ensures View() == OnTimeout(old(View()), k)
    {
      resolve := None;
      if !promises[k].Settled? {
        promises := promises[k := Settled(Timeout)];
      }
    }

    /** The zero-delay callback `trigger` schedules for wait `k`. */
    method ResolveCallback(k: nat)
      requires k < |promises|
      modifies this
      ensures View() == OnCallback(old(View()), k)
    {
      if promises[k].Scheduled? {
        promises := promises[k := Settled(ByEvent(promises[k].event))];
      }
    }
  }

  // ---- lists of triggers

  /** `trigger` on each trigger of the list, in order. */
  function SignalEach(ts: seq<TriggerState>, ids: seq<nat>, e: Event): (r: seq<TriggerState>)
    ensures |r| == |ts|
    decreases |ids|
  {
    if ids == [] then ts
    else if ids[0] < |ts| then SignalEach(ts[ids[0] := OnTrigger(ts[ids[0]], e)], ids[1..], e)
    else SignalEach(ts, ids[1..], e)
  }

  lemma {:induction false} SignalReaches(ts: seq<TriggerState>, ids: seq<nat>, e: Event, t: nat)
    requires t < |ts| && ts[t].Consistent()
    ensures var u := SignalEach(ts, ids, e)[t];
            && (u.Silent() ==> t !in ids && u == ts[t])
            && |u.promises| == |ts[t].promises| && u.Consistent()
    decreases |ids|
  {
    if ids != [] {
      assert ids == [ids[0]] + ids[1..];
      SignalReaches(if ids[0] < |ts| then ts[ids[0] := OnTrigger(ts[ids[0]], e)] else ts, ids[1..], e, t);
    }
  }

  /** The wait of a listed trigger is due to be resolved. */
  lemma {:induction false} SignalSchedules(ts: seq<TriggerState>, ids: seq<nat>, e: Event, t: nat)
    requires t < |ts|
    requires (t in ids && ts[t] == AskedTrigger) || (ts[t].waiting.None? && ts[t].promises == [Scheduled(e)])
    ensures SignalEach(ts, ids, e)[t].promises == [Scheduled(e)]
    decreases |ids|
  {
    if ids != [] {
      assert ids == [ids[0]] + ids[1..];
      SignalSchedules(if ids[0] < |ts| then ts[ids[0] := OnTrigger(ts[ids[0]], e)] else ts, ids[1..], e, t);
    }
  }

  /** What a wait has been answered stays answered, whatever happens to the trigger later. */
  lemma StaleSignalHarmless(s: TriggerState, op: TriggerOp, k: nat)
    requires s.Consistent() && k < |s.promises| && s.promises[k].Settled?
    ensures k < |Act(s, op).promises| && Act(s, op).promises[k] == s.promises[k]
  {
  }

  // ---- lists of trigger objects

  /** A list of trigger objects is a list of their numbers in the order they were made. */
  ghost predicate Numbered(ts: seq<Trigger>, made: seq<Trigger>, ids: seq<nat>) {
    && |ts| == |ids|
    && forall k | 0 <= k < |ids| :: ids[k] < |made| && ts[k] == made[ids[k]]
  }

  lemma {:induction false} SignalEachOnce(ts: seq<TriggerState>, ids: seq<nat>, e: Event, t: nat)
    requires NoRepeats(ids) && t < |ts|
    ensures SignalEach(ts, ids, e)[t] == if t in ids then OnTrigger(ts[t], e) else ts[t]
    decreases |ids|
  {
    if ids != [] {
      assert ids == [ids[0]] + ids[1..];
      forall i, j | 0 <= i < j < |ids[1..]| ensures Differ(ids[1..], i, j) {
        assert Differ(ids, i + 1, j + 1);
      }
      OthersDiffer(ids, 0);
      SignalEachOnce(if ids[0] < |ts| then ts[ids[0] := OnTrigger(ts[ids[0]], e)] else ts, ids[1..], e, t);
    }
  }

  /** Distinct objects have distinct numbers, and an object is on a list if its number is. */
  lemma NumberedOnce(ts: seq<Trigger>, made: seq<Trigger>, ids: seq<nat>, t: nat)
    requires Numbered(ts, made, ids) && NoRepeats(ts) && NoRepeats(made) && t < |made|
    ensures NoRepeats(ids)
    ensures t in ids <==> made[t] in ts
  {
    forall i, j | 0 <= i < j < |ids| ensures Differ(ids, i, j) {
      assert Differ(ts, i, j);
    }
    if made[t] in ts {
      var k :| 0 <= k < |ts| && ts[k] == made[t];
      assert made[ids[k]] == made[t];
      OthersDiffer(made, t);
    }
  }
}
