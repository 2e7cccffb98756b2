/** The blocking receive of a memory queue as a small-step machine: scanning, joining the list of
    triggers and starting to wait is one step, for no `await` lies between them, and so is each
    send or resume together with its signals (packages/store-memory/src/MemoryQueue.ts). */
module Waiters {
  import opened Basics
  import opened Triggers

  /** `since` is the number of sends and resumes at the time of its scan. */
  datatype Phase = Starting | Waiting(trigger: nat, since: nat) | Finished

  datatype State = State(listed: seq<nat>, triggers: seq<TriggerState>, receivers: seq<Phase>, events: nat)

  const Start := State([], [], [], 0)

  datatype Act =
    | Arrives
    | Scans(r: nat, sleeps: bool)
    | GoesOn(r: nat)
    | GivesUp(r: nat)
    | Happens(e: Event)
    | RunsTimer(t: nat)
    | RunsCallback(t: nat)

  predicate Woken(s: State, r: nat)
    requires r < |s.receivers|
  {
    var p := s.receivers[r];
    p.Waiting? && p.trigger < |s.triggers| && s.triggers[p.trigger].Ended()
  }

  predicate Enabled(s: State, a: Act) {
    match a
    case Scans(r, _) => r < |s.receivers| && s.receivers[r].Starting?
    case GoesOn(r) => r < |s.receivers| && Woken(s, r)
    case GivesUp(r) => r < |s.receivers| && Woken(s, r)
    case RunsTimer(t) => t < |s.triggers|
    case RunsCallback(t) => t < |s.triggers|
    case _ => true
  }

  function Step(s: State, a: Act): State {
    if !Enabled(s, a) then s else
    match a
    case Arrives => s.(receivers := s.receivers + [Starting])
    case Scans(r, sleeps) =>
      if !sleeps then s.(receivers := s.receivers[r := Finished])
      else
        var t := |s.triggers|;
        s.(receivers := s.receivers[r := Waiting(t, s.events)],
           listed := s.listed + [t],
           triggers := s.triggers + [OnWait(FreshTrigger)])
    case GoesOn(r) => s.(receivers := s.receivers[r := Starting])
    case GivesUp(r) => s.(receivers := s.receivers[r := Finished])
    case Happens(e) => s.(listed := [], triggers := SignalEach(s.triggers, s.listed, e), events := s.events + 1)
    case RunsTimer(t) => s.(triggers := s.triggers[t := OnTimeout(s.triggers[t], 0)])
    case RunsCallback(t) => s.(triggers := s.triggers[t := OnCallback(s.triggers[t], 0)])
  }

  function Reached(acts: seq<Act>): State {
    if acts == [] then Start else Step(Reached(acts[..|acts| - 1]), acts[|acts| - 1])
  }

  ghost predicate Covered(s: State, r: nat)
    requires r < |s.receivers|
  {
    var p := s.receivers[r];
    p.Waiting? ==>
      && p.trigger < |s.triggers| && p.since <= s.events
      && s.triggers[p.trigger].promises != []
      && (s.triggers[p.trigger].Silent() ==> p.trigger in s.listed && p.since == s.events)
  }

  ghost predicate Good(s: State) {
    && (forall r | 0 <= r < |s.receivers| :: Covered(s, r))
    && (forall t | 0 <= t < |s.triggers| :: s.triggers[t].Consistent())
    && (forall t | t in s.listed :: t < |s.triggers|)
  }

  lemma EventGood(s: State, e: Event)
    requires Good(s)
    ensures Good(Step(s, Happens(e)))
    ensures forall r | 0 <= r < |s.receivers| && s.receivers[r].Waiting? && s.receivers[r].trigger < |s.triggers| ::
              !Step(s, Happens(e)).triggers[s.receivers[r].trigger].Silent()
  {
    var s' := Step(s, Happens(e));
    forall t | 0 <= t < |s.triggers| ensures s'.triggers[t].Consistent() {
      SignalReaches(s.triggers, s.listed, e, t);
    }
    forall r | 0 <= r < |s.receivers|
      ensures Covered(s', r) && (s.receivers[r].Waiting? ==> !s'.triggers[s.receivers[r].trigger].Silent())
    {
      assert Covered(s, r);
      if s.receivers[r].Waiting? {
        SignalReaches(s.triggers, s.listed, e, s.receivers[r].trigger);
      }
    }
  }

  lemma StepGood(s: State, a: Act)
    requires Good(s)
    ensures Good(Step(s, a))
  {
    if a.Happens? {
      EventGood(s, a.e);
    } else {
      var s' := Step(s, a);
      forall r | 0 <= r < |s'.receivers| ensures Covered(s', r) {
        if r < |s.receivers| {
          assert Covered(s, r);
        }
      }
    }
  }

  lemma {:induction false} GoodAlways(acts: seq<Act>)
    ensures Good(Reached(acts))
  {
    if acts != [] {
      GoodAlways(acts[..|acts| - 1]);
      StepGood(Reached(acts[..|acts| - 1]), acts[|acts| - 1]);
    }
  }

  /** The receiver waits, and no signal or timeout has reached its trigger. */
  predicate Blocked(s: State, r: nat) {
    && r < |s.receivers| && s.receivers[r].Waiting? && s.receivers[r].trigger < |s.triggers|
    && s.triggers[s.receivers[r].trigger].Silent()
  }

  /** In every interleaving a blocked receiver has its trigger in the list of the queue, and nothing
      was sent or resumed since its scan. */
  lemma BlockedMissesNothing(acts: seq<Act>, r: nat)
    requires Blocked(Reached(acts), r)
    ensures var s := Reached(acts); s.receivers[r].trigger in s.listed && s.receivers[r].since == s.events
  {
    GoodAlways(acts);
    assert Covered(Reached(acts), r);
  }

  /** A send or a resume empties the list and leaves no receiver blocked. */
  lemma EventWakesAll(acts: seq<Act>, e: Event, r: nat)
    ensures Step(Reached(acts), Happens(e)).listed == []
    ensures !Blocked(Step(Reached(acts), Happens(e)), r)
  {
    GoodAlways(acts);
    EventGood(Reached(acts), e);
  }

  lemma ReachedThen(acts: seq<Act>, a: Act)
    ensures Reached(acts + [a]) == Step(Reached(acts), a)
  {
    assert (acts + [a])[..|acts|] == acts;
  }

  /** An event leads a receiver that waits to its next scan. */
  lemma EventLeadsToScan(acts: seq<Act>, e: Event, r: nat)
    requires Blocked(Reached(acts), r)
    ensures var t := Reached(acts).receivers[r].trigger;
            var s' := Reached(acts + [Happens(e)] + [RunsCallback(t)] + [GoesOn(r)]);
            r < |s'.receivers| && s'.receivers[r].Starting?
  {
    GoodAlways(acts);
    var s := Reached(acts);
    assert Covered(s, r);
    var t := s.receivers[r].trigger;
    assert s.triggers[t].Consistent() && s.triggers[t] == AskedTrigger;
    SignalSchedules(s.triggers, s.listed, e, t);
    ReachedThen(acts, Happens(e));
    ReachedThen(acts + [Happens(e)], RunsCallback(t));
    assert Woken(Reached(acts + [Happens(e)] + [RunsCallback(t)]), r);
    ReachedThen(acts + [Happens(e)] + [RunsCallback(t)], GoesOn(r));
  }

  // ---- the objects

  /** The trigger objects ever made and those listed are the triggers and the list of the machine. */
  ghost predicate Shows(made: seq<Trigger>, listed: seq<Trigger>, s: State)
    reads made
  {
    && NoRepeats(made) && NoRepeats(listed) && Numbered(listed, made, s.listed)
    && |made| == |s.triggers|
    && forall t | 0 <= t < |made| :: made[t].View() == s.triggers[t]
  }

  /** What `sendMessage` and `resume` promise about the triggers is the step of an event. */
  twostate lemma EventRefines(made: seq<Trigger>, listed: seq<Trigger>, s: State, e: Event)
    requires old(Shows(made, listed, s))
    requires forall t | t in listed :: t.View() == OnTrigger(old(t.View()), e)
    requires forall t | t in made && t !in listed :: t.View() == old(t.View())
    ensures Shows(made, [], Step(s, Happens(e)))
  {
    forall t | 0 <= t < |made| ensures made[t].View() == Step(s, Happens(e)).triggers[t] {
      NumberedOnce(listed, made, s.listed, t);
      SignalEachOnce(s.triggers, s.listed, e, t);
    }
  }

  /** What a pass of `receiveMessages` that ends in a wait promises is the step of a scan. */
  twostate lemma PassRefines(made: seq<Trigger>, listed: seq<Trigger>, new trigger: Trigger, s: State, r: nat)
    requires old(Shows(made, listed, s)) && r < |s.receivers| && s.receivers[r].Starting?
    requires fresh(trigger) && trigger.View() == AskedTrigger
    requires forall t | t in made :: t.View() == old(t.View())
    ensures Shows(made + [trigger], listed + [trigger], Step(s, Scans(r, true)))
  {
    assert OnWait(FreshTrigger) == AskedTrigger;
    NoRepeatsAppend(made, trigger);
    NoRepeatsAppend(listed, trigger);
  }
}
