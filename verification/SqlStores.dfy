/** The part of the SQL store that blocks and wakes receivers (packages/store-sql/src/SqlStore.ts):
    a record of trigger lists by queue, added to by receivers and emptied by notifications. Each
    method is proved to make the step of the machine of `WakeUp` it stands for. */
module SqlStores {
  import opened Basics
  import opened Messages
  import opened Triggers
  import opened Dialects
  import W = WakeUp
  import opened MQ = MemoryQueues

  class SqlStore {
    const dialect: Dialect
    /** The names of the queues there are. */
    var queues: set<string>
    var triggers: map<string, seq<Trigger>>
    /** Every trigger ever made, in order. */
    ghost var made: seq<Trigger>

    function ListedFor(queueName: string): seq<Trigger>
      reads this
    {
      if queueName in triggers then triggers[queueName] else []
    }

    ghost predicate Valid()
      reads this
    {
      && NoRepeats(made)
      && forall q | q in triggers :: NoRepeats(triggers[q]) && forall t | t in triggers[q] :: t in made
    }

    /** The triggers and lists of the machine are those of the object. */
    ghost predicate Shows(s: W.State)
      reads this, made
    {
      && |made| == |s.triggers|
      && (forall t | 0 <= t < |made| :: made[t].View() == s.triggers[t])
      && (forall q :: Numbered(ListedFor(q), made, W.ListedFor(s, q)))
    }

    constructor (dialect: Dialect, ghost mutex: bool, ghost connected: bool)
      ensures Valid() && triggers == map[] && made == [] && queues == {} && this.dialect == dialect
      ensures Shows(W.Start(mutex, connected))
    {
      this.dialect := dialect;
      queues := {};
      triggers := map[];
      made := [];
    }

    /** The first step of a pass of `receiveMessages`, before its query. */
    method AddTrigger(queueName: string, ghost s: W.State, ghost r: nat) returns (trigger: Trigger)
      requires Valid() && Shows(s) && r < |s.receivers| && s.receivers[r] == W.Receiver(queueName, W.Starting)
      modifies this`triggers, this`made
      ensures Valid() && fresh(trigger) && trigger.View() == FreshTrigger && made == old(made) + [trigger]
      ensures triggers == old(triggers)[queueName := old(ListedFor(queueName)) + [trigger]]
      ensures Shows(W.Step(s, W.Registers(r)))
    {
      trigger := new Trigger();
      var listed := ListedFor(queueName);
      NoRepeatsAppend(listed, trigger);
      NoRepeatsAppend(made, trigger);
      triggers := triggers[queueName := listed + [trigger]];
      made := made + [trigger];
      ghost var s' := W.Step(s, W.Registers(r));
      forall q ensures Numbered(ListedFor(q), made, W.ListedFor(s', q)) {
        assert Numbered(old(ListedFor(q)), old(made), W.ListedFor(s, q));
      }
    }

    /** `trigger`: takes the list of the queue out of the record and signals each trigger on it. */
    method TriggerAll(queueName: string, message: Event, ghost s: W.State)
      requires Valid() && Shows(s)
      modifies this`triggers, ListedFor(queueName)
      ensures Valid() && triggers == old(triggers) - {queueName}
      ensures forall t | t in old(ListedFor(queueName)) :: t.View() == OnTrigger(old(t.View()), message)
      ensures Shows(W.Notify(s, queueName, message))
    {
      ghost var was, ids := ListedFor(queueName), W.ListedFor(s, queueName);
      ghost var s' := W.Notify(s, queueName, message);
      assert Numbered(was, made, ids);
      if queueName !in triggers {
        return;
      }
      var waiting := triggers[queueName];
      triggers := triggers - {queueName};
      for i := 0 to |waiting|
        invariant triggers == old(triggers) - {queueName}
        invariant forall j | i <= j < |waiting| :: waiting[j].View() == old(waiting[j].View())
        invariant forall j | 0 <= j < i :: waiting[j].View() == OnTrigger(old(waiting[j].View()), message)
        invariant forall t | t in made && t !in waiting :: t.View() == old(t.View())
      {
        OthersDiffer(waiting, i);
        waiting[i].Trigger(message);
      }
      forall t | 0 <= t < |made| ensures made[t].View() == s'.triggers[t] {
        NumberedOnce(was, made, ids, t);
        SignalEachOnce(s.triggers, ids, message, t);
      }
      forall q ensures Numbered(ListedFor(q), made, W.ListedFor(s', q)) {
        assert Numbered(old(ListedFor(q)), made, W.ListedFor(s, q));
      }
    }

    /** What follows the query of a pass: an answer, or a wait on the trigger the pass added. */
    method AfterQuery(trigger: Trigger, found: nat, now: Instant, endTime: Instant, ghost s: W.State, ghost r: nat)
      returns (next: PassEnd)
      requires Valid() && Shows(s) && r < |s.receivers| && s.receivers[r].phase.Queried?
      requires s.receivers[r].phase.trigger < |made| && made[s.receivers[r].phase.trigger] == trigger
      modifies trigger
      ensures next == if found > 0 || now >= endTime then Answer else Sleep(endTime - now)
      ensures trigger.View() == if next.Sleep? then OnWait(old(trigger.View())) else old(trigger.View())
      ensures Shows(W.Step(s, if next.Sleep? then W.Waits(r) else W.Answers(r)))
    {
      ghost var k := s.receivers[r].phase.trigger;
      OthersDiffer(made, k);
      forall q ensures Numbered(ListedFor(q), made, W.ListedFor(s, q)) {}
      if found > 0 {
        return Answer;
      }
      if now > endTime {
        return Answer;
      }
      var timeLeft := endTime - now;
      if timeLeft > 0 {
        var _ := trigger.Wait();
        return Sleep(timeLeft);
      } else {
        return Answer;
      }
    }

    /** Refused when it would set a deadline without naming a handle. */
    method UpdateMessage(queueName: string, id: Id, receiptHandle: Option<Id>, u: MessageUpdate, now: Instant)
      returns (e: Option<Error>)
      requires SqlTables.Unique(dialect.table)
      modifies dialect
      ensures e == if receiptHandle.None? && u.visibilityTimeoutMs.Some? then Some(InvalidUpdate)
                   else if queueName !in queues then Some(QueueNotFound)
                   else old(dialect.UpdateError(queueName, id, receiptHandle, u))
      ensures var k := (id, queueName);
              dialect.table == if e.Some? then old(dialect.table)
                               else old(dialect.table)[k := SqlTables.Changed(u, now)(old(dialect.table)[k])]
    {
      if receiptHandle.None? && u.visibilityTimeoutMs.Some? {
        return Some(InvalidUpdate);
      }
      if queueName !in queues {
        return Some(QueueNotFound);
      }
      e := dialect.UpdateMessage(queueName, id, receiptHandle, u, now);
    }
  }
}
