/** How long a queue lives, over whole runs: what puts off its expiry, and which operations remove it
    (packages/store-memory/src/MemoryQueue.ts and MemoryStore.ts). */
module Expiries {
  import opened Basics
  import opened Queues
  import opened Stores
  import opened Steps
  import opened Pauses

  // ---- what puts off the expiry

  predicate Uses(op: Op, n: string) { (op.Receives? || op.Peeks?) && op.name == n }

  predicate Recreates(op: Op, n: string) { op.CreatesQueue? && Trim(op.name) == n }

  /** The queue expires after this many milliseconds, strictly. */
  ghost predicate LivesUntil(q: Queue, deadline: Instant) {
    forall t :: Expired(q, t) <==> t > deadline
  }

  ghost predicate SameExpiry(q: Queue, q': Queue) {
    q'.expiresMs == q.expiresMs && forall t :: Expired(q', t) <==> Expired(q, t)
  }

  /** A receive or a peek of a queue that expires gives it its whole period again, even a receive of a
      paused queue that hands out nothing. */
  lemma UseRenews(s: Store, op: Op, now: Instant, n: string)
    requires Uses(op, n) && n in s.queues
    ensures var q, s' := s.queues[n], Apply(s, op, now).store;
            && n in s'.queues && s'.queues[n].expiresMs == q.expiresMs
            && (q.expiresMs.Some? ==> LivesUntil(s'.queues[n], now + q.expiresMs.value))
            && (q.expiresMs.None? ==> SameExpiry(q, s'.queues[n]))
  {
  }

  /** A create gives the queue the period it names, if it names one. */
  lemma CreateRenews(s: Store, op: Op, now: Instant, n: string)
    requires Recreates(op, n) && Apply(s, op, now).error.None?
    ensures var s', ms := Apply(s, op, now).store, op.options.expiresMs;
            && n in s'.queues
            && (ms.Some? ==> s'.queues[n].expiresMs == ms && LivesUntil(s'.queues[n], now + ms.value))
            && (ms.None? && n in s.queues ==> SameExpiry(s.queues[n], s'.queues[n]))
            && (ms.None? && n !in s.queues ==> forall t :: !Expired(s'.queues[n], t))
  {
  }

  lemma OtherOpsExpiry(s: Store, op: Op, now: Instant, n: string)
    requires !Adds(op) && !Uses(op, n) && !Recreates(op, n) && n in s.queues && n in Apply(s, op, now).store.queues
    ensures SameExpiry(s.queues[n], Apply(s, op, now).store.queues[n])
  {
    if op.Unsubscribes? {
      UnsubscribeQueues(s, op.subscription, op.order);
    }
  }

  /** Nothing else does: not a send, a poll, a look at a message or a change of one. */
  lemma OthersKeepExpiry(s: Store, op: Op, now: Instant, n: string)
    requires !Uses(op, n) && !Recreates(op, n) && n in s.queues && n in Apply(s, op, now).store.queues
    ensures SameExpiry(s.queues[n], Apply(s, op, now).store.queues[n])
  {
    if Adds(op) {
      AddsKeepShells(s, op, now);
      assert SameShell(s, Apply(s, op, now).store, n);
    } else {
      OtherOpsExpiry(s, op, now, n);
    }
  }

  // ---- what removes a queue

  ghost predicate IsTarget(s: Store, n: string) {
    exists k | k in s.queues :: s.queues[k].options.deadLetterQueueName == Some(n)
  }

  lemma NothingElseRemoves(s: Store, op: Op, now: Instant, n: string)
    requires n in s.queues && !op.Polls? && !op.DeletesQueue?
    ensures n in Apply(s, op, now).store.queues
  {
    match op
    case Publishes(t, body, o) =>
      TopicKeepsShells(s, t, body, o, now);
      assert n in Apply(s, op, now).store.queues.Keys;
    case Unsubscribes(id, order) => UnsubscribeQueues(s, id, order);
    case _ =>
  }

  /** A queue goes exactly with a poll after its expiry, or when it is deleted and no queue names it as
      its dead-letter queue. */
  lemma RemovedExactly(s: Store, op: Op, now: Instant, n: string)
    requires n in s.queues
    ensures n !in Apply(s, op, now).store.queues
       <==> (op.Polls? && Expired(s.queues[n], now)) || (op == DeletesQueue(n) && !IsTarget(s, n))
  {
    if op.Polls? {
      PollKeepsShells(RemoveExpired(s, now), op.order, now);
      assert n in Apply(s, op, now).store.queues.Keys <==> n in RemoveExpired(s, now).queues.Keys;
    } else if !op.DeletesQueue? {
      NothingElseRemoves(s, op, now, n);
    }
  }

  // ---- runs

  /** Between the operations `i` and `j` nothing uses, creates or deletes the queue. */
  ghost predicate LeftAlone(ops: seq<Op>, i: nat, j: nat, n: string)
    requires j <= |ops|
  {
    forall l | i < l < j :: !Uses(ops[l], n) && !Recreates(ops[l], n) && ops[l] != DeletesQueue(n)
  }

  lemma {:induction false} LivesOn(ws: seq<World>, ops: seq<Op>, i: nat, j: nat, n: string, ms: int)
    requires IsRun(ws, ops) && i < j <= |ops| && Uses(ops[i], n) && LeftAlone(ops, i, j, n)
    requires n in ws[i].store.queues && ws[i].store.queues[n].expiresMs == Some(ms)
    requires ws[j].now <= ws[i].now + ms
    ensures n in ws[j].store.queues && LivesUntil(ws[j].store.queues[n], ws[i].now + ms)
    decreases j
  {
    assert StepAt(ws, ops, j - 1);
    if j == i + 1 {
      UseRenews(ws[i].store, ops[i], ws[i].now, n);
    } else {
      LivesOn(ws, ops, i, j - 1, n, ms);
      RemovedExactly(ws[j - 1].store, ops[j - 1], ws[j - 1].now, n);
      OthersKeepExpiry(ws[j - 1].store, ops[j - 1], ws[j - 1].now, n);
    }
  }

  /** Queues come into being by being created. */
  lemma NotAdded(s: Store, op: Op, now: Instant, n: string)
    requires n !in s.queues && !Recreates(op, n)
    ensures n !in Apply(s, op, now).store.queues
  {
    if Adds(op) {
      AddsKeepShells(s, op, now);
      assert n !in Apply(s, op, now).store.queues.Keys;
    } else if op.Unsubscribes? {
      UnsubscribeQueues(s, op.subscription, op.order);
    }
  }

  /** In every run: after a receive or a peek, as long as nothing else uses, creates or deletes the queue, a
      poll finds it expired exactly if more than its period has passed since. */
  lemma ExpiresExactly(ws: seq<World>, ops: seq<Op>, i: nat, j: nat, n: string, ms: int)
    requires IsRun(ws, ops) && i < j < |ops| && Uses(ops[i], n) && LeftAlone(ops, i, j, n) && ops[j].Polls?
    requires n in ws[i].store.queues && ws[i].store.queues[n].expiresMs == Some(ms)
    ensures n in ws[j + 1].store.queues <==> ws[j].now <= ws[i].now + ms
  {
    assert StepAt(ws, ops, j);
    if ws[j].now <= ws[i].now + ms {
      LivesOn(ws, ops, i, j, n, ms);
      RemovedExactly(ws[j].store, ops[j], ws[j].now, n);
    } else if n in ws[j].store.queues {
      ExpiredBy(ws, ops, i, j, n, ms);
      RemovedExactly(ws[j].store, ops[j], ws[j].now, n);
    } else {
      NotAdded(ws[j].store, ops[j], ws[j].now, n);
    }
  }

  /** Its deadline stays the same while it is there. */
  lemma {:induction false} ExpiredBy(ws: seq<World>, ops: seq<Op>, i: nat, j: nat, n: string, ms: int)
    requires IsRun(ws, ops) && i < j <= |ops| && Uses(ops[i], n) && LeftAlone(ops, i, j, n)
    requires n in ws[i].store.queues && ws[i].store.queues[n].expiresMs == Some(ms) && n in ws[j].store.queues
    ensures LivesUntil(ws[j].store.queues[n], ws[i].now + ms)
    decreases j
  {
    assert StepAt(ws, ops, j - 1);
    if j == i + 1 {
      UseRenews(ws[i].store, ops[i], ws[i].now, n);
    } else {
      if n !in ws[j - 1].store.queues {
        NotAdded(ws[j - 1].store, ops[j - 1], ws[j - 1].now, n);
      }
      ExpiredBy(ws, ops, i, j - 1, n, ms);
      OthersKeepExpiry(ws[j - 1].store, ops[j - 1], ws[j - 1].now, n);
    }
  }
}
