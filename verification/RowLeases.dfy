/** Leases on the rows of the message table: what a run of statements can do to a row that was handed
    out, until it is handed out again (packages/store-sql/src/sql/Sql.ts). */
module RowLeases {
  import opened Basics
  import opened SqlTables

  /** The row is there under the handle, with this deadline. */
  predicate Held(t: Table, k: Key, handle: Id, deadline: Instant) {
    k in t && t[k].receiptHandle == Some(handle) && t[k].expiresAt == Some(deadline)
  }

  /** The statement changes the deadline of the row, and names the handle. */
  predicate Uses(st: Stmt, k: Key, handle: Id) {
    match st
    case SetVisibility(q, h, _) => q == k.1 && h == handle
    case Change(q, id, h, u) => (id, q) == k && h == Some(handle) && u.visibilityTimeoutMs.Some?
    case Nak(q, id, h, _) => (id, q) == k && h == handle
    case _ => false
  }

  /** The row is as it was, or gone. */
  predicate Stays(t: Table, t': Table, k: Key)
    requires k in t
  {
    k !in t' || (t'[k].receiptHandle == t[k].receiptHandle && t'[k].expiresAt == t[k].expiresAt)
  }

  lemma UpdateStays(t: Table, queue: string, where: (Id, Row) -> bool, f: Row -> Row, k: Key)
    requires k in t
    requires k.1 == queue && where(k.0, t[k]) ==>
               f(t[k]).receiptHandle == t[k].receiptHandle && f(t[k]).expiresAt == t[k].expiresAt
    ensures Stays(t, After(t, UpdateRows(t, queue, where, f)), k)
  {
  }

  /** A row that is not selected stays: one that would take its place breaks the primary key. */
  lemma RequeueStays(t: Table, queue: string, target: string, where: (Id, Row) -> bool, f: Row -> Row, k: Key)
    requires k in t && !(k.1 == queue && where(k.0, t[k]))
    ensures Stays(t, After(t, RequeueRows(t, queue, target, where, f)), k)
  {
    var keys := Selected(t, queue, where);
    if target == k.1 && (k.0, queue) in keys {
      assert target != queue && (k.0, target) in t;
    }
  }

  lemma ReceiveStays(t: Table, st: Stmt, now: Instant, nid: Id, k: Key, handle: Id, deadline: Instant)
    requires Good(t, now, nid) && st.Receive? && Answered(t, st, now)
    requires Held(t, k, handle, deadline) && now <= deadline
    ensures Held(After(t, Exec(t, st, now, nid)), k, handle, deadline)
  {
    AnsweredIsReceivable(t, st.queue, now, st.maxReceiveCount, st.count, st.answer);
    forall p | 0 <= p < |st.answer| ensures k != (st.answer[p], st.queue) {
      assert Matches(RowsOf(t, st.queue)[st.answer[p]], now, st.maxReceiveCount);
    }
    ReceiveEach(t, st.queue, st.answer, now + st.visibilityTimeoutMs, now, nid, k);
  }

  /** Before the deadline, only its handle changes the lease on a row; else it stays or is removed. */
  lemma StepStays(t: Table, st: Stmt, now: Instant, nid: Id, k: Key, handle: Id, deadline: Instant)
    requires Good(t, now, nid) && Allowed(t, st, now) && Answered(t, st, now)
    requires Held(t, k, handle, deadline) && now <= deadline && !Uses(st, k, handle)
    ensures Stays(t, After(t, Exec(t, st, now, nid)), k)
  {
    match st
    case Insert(_, _, _, _, _) =>
    case Receive(_, _, _, _, _) => ReceiveStays(t, st, now, nid, k, handle, deadline);
    case SetVisibility(q, h, ms) => UpdateStays(t, q, ByHandle(h), Extended(ms, now), k);
    case Change(q, id, h, u) => UpdateStays(t, q, ById(id, h), Changed(u, now), k);
    case Nak(q, id, h, reason) => UpdateStays(t, q, ById(id, Some(h)), Nakked(reason, now), k);
    case MoveToEnd(q) => UpdateStays(t, q, IsLapsed(now), Reordered(now), k);
    case DecreasePriority(q, amount) => UpdateStays(t, q, IsLapsed(now), Lowered(amount), k);
    case DeadLetter(q, target, ms, limit) =>
      RequeueStays(t, q, target, OverLimit(limit, now), DeadLettered(ms, now), k);
    case MoveAll(q, target, ms) => RequeueStays(t, q, target, IsVisible(now), Requeued(ms, now), k);
    case _ =>
  }

  lemma ReceiveHolds(t: Table, queue: string, answer: seq<Id>, deadline: Instant, now: Instant, nid: Id, p: nat)
    requires Good(t, now, nid) && Receivable(t, queue, answer, now) && p < |answer|
    ensures Held(After(t, ReceiveRows(t, queue, answer, deadline, now, nid)), (answer[p], queue), nid + p, deadline)
  {
    var k := (answer[p], queue);
    ReceiveEach(t, queue, answer, deadline, now, nid, k);
    assert ReceiveRows(t, queue, answer, deadline, now, nid).table[k] == ReceivedRow(t[k], deadline, now, nid + p);
  }

  /** The statement `i` hands out the row of key `k` as the `p`-th of its answer. */
  predicate HandsOut(es: seq<Event>, i: nat, p: nat, k: Key) {
    && i < |es| && es[i].Executes? && es[i].st.Receive?
    && p < |es[i].st.answer| && k == (es[i].st.answer[p], es[i].st.queue)
  }

  lemma ReceiveStep(ds: seq<Database>, es: seq<Event>, i: nat)
    requires IsRun(ds, es) && i < |es| && es[i].Executes? && es[i].st.Receive?
    ensures var t, st, now := ds[i].table, es[i].st, ds[i].now;
            && ds[i + 1].table == After(t, ReceiveRows(t, st.queue, st.answer, now + st.visibilityTimeoutMs, now,
                                                       ds[i].nextId))
            && Receivable(t, st.queue, st.answer, now)
  {
    assert StepAt(ds, es, i);
    var t, st, now := ds[i].table, es[i].st, ds[i].now;
    AnsweredIsReceivable(t, st.queue, now, st.maxReceiveCount, st.count, st.answer);
  }

  lemma HandedOut(ds: seq<Database>, es: seq<Event>, i: nat, p: nat, k: Key)
    requires IsRun(ds, es) && HandsOut(es, i, p, k)
    ensures Held(ds[i + 1].table, k, ds[i].nextId + p, ds[i].now + es[i].st.visibilityTimeoutMs)
  {
    var st, now := es[i].st, ds[i].now;
    GoodAfter(ds, es, i);
    ReceiveStep(ds, es, i);
    ReceiveHolds(ds[i].table, st.queue, st.answer, now + st.visibilityTimeoutMs, now, ds[i].nextId, p);
  }

  ghost predicate UsedAt(es: seq<Event>, l: nat, k: Key, handle: Id)
    requires l < |es|
  {
    es[l].Executes? && Uses(es[l].st, k, handle)
  }

  /** The row was gone in a state in between, or its handle was used. */
  ghost predicate GivenUp(ds: seq<Database>, es: seq<Event>, i: nat, j: nat, k: Key, handle: Id)
    requires j < |ds| && j <= |es|
  {
    || (exists l | i < l <= j :: k !in ds[l].table)
    || (exists l | i < l < j :: UsedAt(es, l, k, handle))
  }

  lemma {:induction false} HeldUntil(ds: seq<Database>, es: seq<Event>, i: nat, j: nat, k: Key, handle: Id,
          deadline: Instant)
    requires IsRun(ds, es) && i < j <= |es| && Held(ds[i + 1].table, k, handle, deadline)
    requires !GivenUp(ds, es, i, j, k, handle)
    ensures Held(ds[j].table, k, handle, deadline) || ds[j].now > deadline
    decreases j
  {
    if j > i + 1 {
      HeldUntil(ds, es, i, j - 1, k, handle, deadline);
      assert StepAt(ds, es, j - 1) && !UsedAt(es, j - 1, k, handle);
      GoodAfter(ds, es, j - 1);
      if es[j - 1].Executes? && ds[j - 1].now <= deadline {
        StepStays(ds[j - 1].table, es[j - 1].st, ds[j - 1].now, ds[j - 1].nextId, k, handle, deadline);
      }
    }
  }

  /** Between two statements of a run that hand out one row, the first deadline strictly passed, or the
      row was removed or had its lease changed under the first handle. */
  lemma RowLeaseExclusive(ds: seq<Database>, es: seq<Event>, i: nat, p: nat, j: nat, p': nat, k: Key)
    requires IsRun(ds, es) && i < j && HandsOut(es, i, p, k) && HandsOut(es, j, p', k)
    ensures || ds[j].now > ds[i].now + es[i].st.visibilityTimeoutMs
            || GivenUp(ds, es, i, j, k, ds[i].nextId + p)
  {
    var st := es[j].st;
    HandedOut(ds, es, i, p, k);
    assert StepAt(ds, es, j);
    assert Matches(RowsOf(ds[j].table, st.queue)[st.answer[p']], ds[j].now, st.maxReceiveCount);
    if !GivenUp(ds, es, i, j, k, ds[i].nextId + p) {
      HeldUntil(ds, es, i, j, k, ds[i].nextId + p, ds[i].now + es[i].st.visibilityTimeoutMs);
    }
  }
}
