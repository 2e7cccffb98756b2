/** The database access of the SQL store (packages/store-sql/src/dialect/Dialect.ts): methods
    that run statements against the message table, each a transaction of its own. */
module Dialects {
  import opened Basics
  import opened Messages
  import opened SqlTables

  datatype ReceivedMessage = ReceivedMessage(id: Id, row: Row)

  predicate Holds(t: Table, queue: string, ids: seq<Id>) {
    forall i | 0 <= i < |ids| :: (ids[i], queue) in t
  }

  /** The rows the query reads, before any of them is updated. */
  function Fetch(t: Table, queue: string, ids: seq<Id>): (rows: seq<Row>)
    requires Holds(t, queue, ids)
    ensures |rows| == |ids| && forall i | 0 <= i < |ids| :: rows[i] == t[(ids[i], queue)]
  {
    seq(|ids|, i requires 0 <= i < |ids| => t[(ids[i], queue)])
  }

  /** What the caller gets: each row as it was, with the next handle. */
  predicate AsReceived(received: seq<ReceivedMessage>, ids: seq<Id>, rows: seq<Row>, nid: Id)
    requires |rows| == |ids|
  {
    && |received| == |ids|
    && forall i | 0 <= i < |ids| :: received[i] == ReceivedMessage(ids[i], rows[i].(receiptHandle := Some(nid + i)))
  }

  lemma AsReceivedStep(received: seq<ReceivedMessage>, ids: seq<Id>, i: nat, rows: seq<Row>, nid: Id)
    requires |rows| == |ids| && i < |ids| && AsReceived(received, ids[..i], rows[..i], nid)
    ensures AsReceived(received + [ReceivedMessage(ids[i], rows[i].(receiptHandle := Some(nid + i)))],
                       ids[..i + 1], rows[..i + 1], nid)
  {
  }

  lemma ReceiveStep(t: Table, queue: string, ids: seq<Id>, i: nat, rows: seq<Row>, deadline: Instant, now: Instant,
          nid: Id)
    requires Good(t, now, nid) && i < |ids| == |rows|
    requires Receivable(t, queue, ids[i..], now) && Fetch(t, queue, ids[i..]) == rows[i..]
    ensures (ids[i], queue) in t && t[(ids[i], queue)] == rows[i]
    ensures var t' := t[(ids[i], queue) := ReceivedRow(rows[i], deadline, now, nid)];
            && Good(t', now, nid + 1)
            && Receivable(t', queue, ids[i + 1..], now) && Fetch(t', queue, ids[i + 1..]) == rows[i + 1..]
            && ReceiveRows(t, queue, ids[i..], deadline, now, nid)
               == ReceiveRows(t', queue, ids[i + 1..], deadline, now, nid + 1)
  {
    assert ids[i..][0] == ids[i] && ids[i..][1..] == ids[i + 1..] && rows[i..][0] == rows[i];
    ReceiveOneGood(t, queue, ids[i], deadline, now, nid);
    ReceivableRest(t, queue, ids[i..], deadline, now, nid);
    var t' := t[(ids[i], queue) := ReceivedRow(rows[i], deadline, now, nid)];
    forall j | i + 1 <= j < |ids| ensures t'[(ids[j], queue)] == rows[j] {
      assert ids[i..][j - i] == ids[j] && rows[i..][j - i] == rows[j] && ids[i..][0] == ids[i];
    }
  }

  /** The loop of `receiveMessages` after `i` rows. */
  ghost predicate Running(t0: Table, nid0: Id, queue: string, ids: seq<Id>, rows: seq<Row>, deadline: Instant,
          now: Instant, i: nat, t: Table, received: seq<ReceivedMessage>)
  {
    && i <= |ids| == |rows|
    && AsReceived(received, ids[..i], rows[..i], nid0)
    && Good(t, now, nid0 + i) && Receivable(t, queue, ids[i..], now) && Fetch(t, queue, ids[i..]) == rows[i..]
    && ReceiveRows(t0, queue, ids, deadline, now, nid0) == ReceiveRows(t, queue, ids[i..], deadline, now, nid0 + i)
  }

  lemma RunningStart(t0: Table, nid0: Id, queue: string, ids: seq<Id>, rows: seq<Row>, deadline: Instant, now: Instant)
    requires Good(t0, now, nid0) && Receivable(t0, queue, ids, now) && rows == Fetch(t0, queue, ids)
    ensures Running(t0, nid0, queue, ids, rows, deadline, now, 0, t0, [])
  {
    assert ids[0..] == ids && rows[0..] == rows;
  }

  lemma RunningStep(t0: Table, nid0: Id, queue: string, ids: seq<Id>, rows: seq<Row>, deadline: Instant, now: Instant,
                    i: nat, t: Table, received: seq<ReceivedMessage>, t': Table, received': seq<ReceivedMessage>)
    requires Running(t0, nid0, queue, ids, rows, deadline, now, i, t, received) && i < |ids|
    requires t' == t[(ids[i], queue) := ReceivedRow(rows[i], deadline, now, nid0 + i)]
    requires received' == received + [ReceivedMessage(ids[i], rows[i].(receiptHandle := Some(nid0 + i)))]
    ensures Running(t0, nid0, queue, ids, rows, deadline, now, i + 1, t', received')
  {
    ReceiveStep(t, queue, ids, i, rows, deadline, now, nid0 + i);
    AsReceivedStep(received, ids, i, rows, nid0);
  }

  lemma RunningEnd(t0: Table, nid0: Id, queue: string, ids: seq<Id>, rows: seq<Row>, deadline: Instant, now: Instant,
                   t: Table, received: seq<ReceivedMessage>)
    requires Running(t0, nid0, queue, ids, rows, deadline, now, |ids|, t, received)
    ensures Good(t, now, nid0 + |ids|) && AsReceived(received, ids, rows, nid0)
    ensures ReceiveRows(t0, queue, ids, deadline, now, nid0) == Effect(t, 0)
  {
    assert ids[..|ids|] == ids && rows[..|ids|] == rows && ids[|ids|..] == [];
  }

  predicate VisibleIn(t: Table, queue: string, id: Id, now: Instant) {
    (id, queue) in t && t[(id, queue)].Visible(now)
  }

  /** The two rows cannot be in one queue: they have the same id, or the same deduplication id and
      receipt handle. */
  predicate Clash(t: Table, k: Key, k': Key)
    requires k in t && k' in t
  {
    || k.0 == k'.0
    || (&& t[k].deduplicationId.Some? && t[k].deduplicationId == t[k'].deduplicationId
        && t[k].receiptHandle == t[k'].receiptHandle)
  }

  predicate MoveClashes(t: Table, source: string, target: string, now: Instant) {
    && source != target
    && exists k, k' | k in t && k' in t ::
         k.1 == source && t[k].Visible(now) && k'.1 == target && Clash(t, k, k')
  }

  /** Where the row of a key comes from: a visible row of the source is in the target, with the new
      retention and otherwise as it was; every other row is where it was. */
  predicate MovedAt(t: Table, t': Table, source: string, target: string, until: Option<Instant>, now: Instant, k: Key) {
    if VisibleIn(t, source, k.0, now) && k.1 == target
    then k in t' && t'[k] == t[(k.0, source)].(retainUntil := until)
    else if VisibleIn(t, source, k.0, now) && k.1 == source then k !in t'
    else (k in t' <==> k in t) && (k in t ==> t'[k] == t[k])
  }

  ghost predicate Moved(t: Table, t': Table, source: string, target: string, until: Option<Instant>, now: Instant) {
    forall k: Key :: MovedAt(t, t', source, target, until, now, k)
  }

  function MovedTable(t: Table, source: string, target: string, ms: Option<int>, now: Instant): Table {
    Rekeyed(t, source, Selected(t, source, IsVisible(now)), target, Requeued(ms, now))
  }

  lemma RowsMoved(t: Table, source: string, target: string, ms: Option<int>, now: Instant)
    ensures Moved(t, MovedTable(t, source, target, ms, now), source, target, Until(ms, now), now)
  {
    var keys, t' := Selected(t, source, IsVisible(now)), MovedTable(t, source, target, ms, now);
    forall k: Key ensures MovedAt(t, t', source, target, Until(ms, now), now, k) {
      if VisibleIn(t, source, k.0, now) && k.1 == target {
        assert (k.0, source) in keys;
      }
    }
  }

  ghost predicate NoIdTaken(t: Table, source: string, target: string, now: Instant) {
    source != target ==> forall id: Id | VisibleIn(t, source, id, now) :: (id, target) !in t
  }

  lemma VisibleSelected(t: Table, source: string, now: Instant)
    ensures Selected(t, source, IsVisible(now)) == VisibleKeys(t, source, now)
  {
  }

  lemma RequeueCases(t: Table, source: string, target: string, ms: Option<int>, now: Instant)
    ensures RequeueRows(t, source, target, IsVisible(now), Requeued(ms, now))
         == if NoIdTaken(t, source, target, now)
            then Checked(MovedTable(t, source, target, ms, now), |VisibleKeys(t, source, now)|)
            else Violated
  {
    var keys := Selected(t, source, IsVisible(now));
    VisibleSelected(t, source, now);
    forall id: Id | VisibleIn(t, source, id, now) ensures (id, source) in keys {}
  }

  lemma TakenClashes(t: Table, source: string, target: string, now: Instant)
    requires !NoIdTaken(t, source, target, now)
    ensures MoveClashes(t, source, target, now)
  {
    var id: Id :| VisibleIn(t, source, id, now) && (id, target) in t;
    assert Clash(t, (id, source), (id, target));
  }

  /** The key a row had before the move. */
  function CameFrom(t: Table, source: string, target: string, now: Instant, k: Key): Key {
    if VisibleIn(t, source, k.0, now) && k.1 == target then (k.0, source) else k
  }

  /** The unique index after a move no id of which is in the target. */
  lemma MovedUnique(t: Table, t': Table, source: string, target: string, until: Option<Instant>, now: Instant)
    requires Unique(t) && Moved(t, t', source, target, until, now)
    requires NoIdTaken(t, source, target, now)
    ensures Unique(t') <==> !MoveClashes(t, source, target, now)
  {
    if MoveClashes(t, source, target, now) {
      var k, k' :| k in t && k' in t && k.1 == source && t[k].Visible(now) && k'.1 == target && Clash(t, k, k');
      assert MovedAt(t, t', source, target, until, now, (k.0, target));
      assert MovedAt(t, t', source, target, until, now, k');
      assert !Apart(t', (k.0, target), k');
    } else {
      forall k, k' | k in t' && k' in t' && k != k' ensures Apart(t', k, k') {
        assert MovedAt(t, t', source, target, until, now, k) && MovedAt(t, t', source, target, until, now, k');
        var from, from' := CameFrom(t, source, target, now, k), CameFrom(t, source, target, now, k');
        assert Apart(t, from, from');
      }
    }
  }

  /** Whether the statement of a move fails, and what it makes of each row. */
  lemma MoveExactly(t: Table, source: string, target: string, ms: Option<int>, now: Instant)
    requires Unique(t)
    ensures var e := RequeueRows(t, source, target, IsVisible(now), Requeued(ms, now));
            && (e.Violated? <==> MoveClashes(t, source, target, now))
            && (e.Effect? ==> e.changes == |VisibleKeys(t, source, now)| && Unique(e.table)
                              && Moved(t, e.table, source, target, Until(ms, now), now))
  {
    RequeueCases(t, source, target, ms, now);
    if NoIdTaken(t, source, target, now) {
      RowsMoved(t, source, target, ms, now);
      MovedUnique(t, MovedTable(t, source, target, ms, now), source, target, Until(ms, now), now);
    } else {
      TakenClashes(t, source, target, now);
    }
  }

  /** The primary key selects at most one row; what does not change the deduplication id or the
      handle cannot break an index. */
  lemma SelectedById(t: Table, queue: string, id: Id, handle: Option<Id>, f: Row -> Row)
    requires Unique(t)
    requires forall r :: f(r).deduplicationId == r.deduplicationId && f(r).receiptHandle == r.receiptHandle
    ensures var hit := (id, queue) in t && (handle.None? || t[(id, queue)].receiptHandle == handle);
            UpdateRows(t, queue, ById(id, handle), f)
            == (if hit then Effect(t[(id, queue) := f(t[(id, queue)])], 1) else Effect(t, 0))
  {
    var keys := Selected(t, queue, ById(id, handle));
    var t' := map k | k in t :: if k in keys then f(t[k]) else t[k];
    assert Unique(t') by {
      forall k, k' | k in t' && k' in t' && k != k' ensures Apart(t', k, k') {
        assert Apart(t, k, k');
      }
    }
    if (id, queue) in t && (handle.None? || t[(id, queue)].receiptHandle == handle) {
      assert keys == {(id, queue)};
      assert t' == t[(id, queue) := f(t[(id, queue)])];
    } else {
      assert keys == {};
      assert t' == t;
    }
  }

  lemma HeldNotDelayed(t: Table, queue: string, now: Instant, nid: Id)
    requires Good(t, now, nid)
    ensures DelayedKeys(t, queue, now) * NotVisibleKeys(t, queue, now) == {}
  {
  }

  /** What receiving a visible row makes of the three counts. */
  lemma ReceivedKeys(t: Table, queue: string, id: Id, now: Instant, deadline: Instant, nid: Id)
    requires VisibleIn(t, queue, id, now) && deadline >= now
    ensures var t' := t[(id, queue) := ReceivedRow(t[(id, queue)], deadline, now, nid)];
            && QueueKeys(t', queue) == QueueKeys(t, queue)
            && DelayedKeys(t', queue, now) == DelayedKeys(t, queue, now)
            && NotVisibleKeys(t', queue, now) == NotVisibleKeys(t, queue, now) + {(id, queue)}
    ensures (id, queue) !in NotVisibleKeys(t, queue, now)
  {
  }

  /** A row received between the first count and the others is counted twice: as visible and as held. */
  lemma ReceivedCountsTwice(t: Table, queue: string, id: Id, now: Instant, deadline: Instant, nid: Id)
    requires Good(t, now, nid) && VisibleIn(t, queue, id, now) && deadline >= now
    ensures var t' := t[(id, queue) := ReceivedRow(t[(id, queue)], deadline, now, nid)];
            && |QueueKeys(t', queue)| == |QueueKeys(t, queue)|
            && |VisibleKeys(t, queue, now)| + |DelayedKeys(t', queue, now)| + |NotVisibleKeys(t', queue, now)|
               == |QueueKeys(t, queue)| + 1
  {
    HeldNotDelayed(t, queue, now, nid);
    CountsExactly(t, queue, now);
    ReceivedKeys(t, queue, id, now, deadline, nid);
  }

  class Dialect {
    var table: Table

    constructor ()
      ensures table == map[]
    {
      table := map[];
    }

    /** `answer` is what the database answers to the receive query. The messages returned show the
        rows as they were before the update, with the new handle. */
    method ReceiveMessages(queue: string, visibilityTimeoutMs: int, maxReceiveCount: Option<int>, count: nat,
                           answer: seq<Id>, now: Instant, ids: IdSource)
      returns (received: seq<ReceivedMessage>)
      requires Good(table, now, ids.next)
      requires IsAnswer(RowsOf(table, queue), now, maxReceiveCount, count, answer)
      modifies this, ids
      ensures ReceiveRows(old(table), queue, answer, now + visibilityTimeoutMs, now, old(ids.next)) == Effect(table, 0)
      ensures Good(table, now, ids.next) && ids.next == old(ids.next) + |answer|
      ensures Holds(old(table), queue, answer)
      ensures AsReceived(received, answer, Fetch(old(table), queue, answer), old(ids.next))
    {
      ghost var t0, nid0, deadline := table, ids.next, now + visibilityTimeoutMs;
      AnsweredIsReceivable(table, queue, now, maxReceiveCount, count, answer);
      var rows := Fetch(table, queue, answer);
      received := [];
      RunningStart(t0, nid0, queue, answer, rows, deadline, now);
      for i := 0 to |answer|
        invariant ids.next == nid0 + i
        invariant Running(t0, nid0, queue, answer, rows, deadline, now, i, table, received)
      {
        received := ReceiveNext(queue, answer, rows, i, received, visibilityTimeoutMs, now, ids, t0, nid0, deadline);
      }
      RunningEnd(t0, nid0, queue, answer, rows, deadline, now, table, received);
    }

    /** The body of the loop: the next row of the answer. */
    method ReceiveNext(queue: string, answer: seq<Id>, rows: seq<Row>, i: nat, received0: seq<ReceivedMessage>,
            visibilityTimeoutMs: int, now: Instant, ids: IdSource,
            ghost t0: Table, ghost nid0: Id, ghost deadline: Instant)
      returns (received: seq<ReceivedMessage>)
      requires i < |answer| == |rows| && ids.next == nid0 + i && deadline == now + visibilityTimeoutMs
      requires Running(t0, nid0, queue, answer, rows, deadline, now, i, table, received0)
      modifies this, ids
      ensures ids.next == nid0 + i + 1
      ensures Running(t0, nid0, queue, answer, rows, deadline, now, i + 1, table, received)
    {
      ghost var t := table;
      var message := ReceiveMessage(queue, answer[i], rows[i], visibilityTimeoutMs, now, ids);
      received := received0 + [message];
      RunningStep(t0, nid0, queue, answer, rows, deadline, now, i, t, received0, table, received);
    }

    /** One row of the answer: `row` is what the query read. */
    method ReceiveMessage(queue: string, id: Id, row: Row, visibilityTimeoutMs: int, now: Instant, ids: IdSource)
      returns (message: ReceivedMessage)
      modifies this, ids
      ensures ids.next == old(ids.next) + 1
      ensures table == old(table)[(id, queue) := ReceivedRow(row, now + visibilityTimeoutMs, now, old(ids.next))]
      ensures message == ReceivedMessage(id, row.(receiptHandle := Some(old(ids.next))))
    {
      var receiptHandle := ids.CreateId();
      var newExpireTime := now + visibilityTimeoutMs;
      var firstReceivedAt := if row.firstReceivedAt.Some? then row.firstReceivedAt else Some(now);
      table := table[(id, queue) :=
        row.(expiresAt := Some(newExpireTime), receiptHandle := Some(receiptHandle),
             firstReceivedAt := firstReceivedAt, receiveCount := row.receiveCount + 1)];
      message := ReceivedMessage(id, row.(receiptHandle := Some(receiptHandle)));
    }

    /** Three count queries, each on its own, and their sum; other statements may come in between, so the
        second and the third read the tables given. The sum is the number of rows if nothing did. */
    method GetQueueInfo(queue: string, now: Instant, second: Table, third: Table, ghost nid: Id)
      returns (total: nat, visible: nat, delayed: nat, notVisible: nat)
      ensures visible == |VisibleKeys(table, queue, now)|
      ensures delayed == |DelayedKeys(second, queue, now)|
      ensures notVisible == |NotVisibleKeys(third, queue, now)|
      ensures total == visible + delayed + notVisible
      ensures second == third == table && Good(table, now, nid) ==> total == |QueueKeys(table, queue)|
    {
      visible := |VisibleKeys(table, queue, now)|;
      delayed := |DelayedKeys(second, queue, now)|;
      notVisible := |NotVisibleKeys(third, queue, now)|;
      total := visible + delayed + notVisible;
      if second == third == table && Good(table, now, nid) {
        HeldNotDelayed(table, queue, now, nid);
        CountsExactly(table, queue, now);
      }
    }

    method NakMessage(queue: string, id: Id, receiptHandle: Id, reason: Option<string>, now: Instant)
      returns (e: Option<Error>)
      requires Unique(table)
      modifies this
      ensures e == if (id, queue) !in old(table) then Some(MessageNotFound)
                   else if old(table)[(id, queue)].receiptHandle != Some(receiptHandle) then Some(InvalidReceiptHandle)
                   else None
      ensures table == if e.Some? then old(table)
                       else old(table)[(id, queue) := Nakked(reason, now)(old(table)[(id, queue)])]
    {
      var results := UpdateRows(table, queue, ById(id, Some(receiptHandle)), Nakked(reason, now));
      SelectedById(table, queue, id, Some(receiptHandle), Nakked(reason, now));
      table := After(table, results);
      if results.Effect? && results.changes != 1 {
        if (id, queue) !in table {
          return Some(MessageNotFound);
        }
        return Some(InvalidReceiptHandle);
      }
      return None;
    }

    /** The first check of `UpdateMessage` that fails. */
    function UpdateError(queue: string, id: Id, receiptHandle: Option<Id>, u: MessageUpdate): Option<Error>
      reads this
    {
      if u.visibilityTimeoutMs.None? && u.priority.None? && u.attributes.None? then Some(NothingToUpdate)
      else if (id, queue) !in table then Some(MessageNotFound)
      else if receiptHandle.Some? && table[(id, queue)].receiptHandle != receiptHandle then Some(InvalidReceiptHandle)
      else None
    }

    /** Changes the row, or fails and changes nothing; an update that names no field makes no statement. */
    method UpdateMessage(queue: string, id: Id, receiptHandle: Option<Id>, u: MessageUpdate, now: Instant)
      returns (e: Option<Error>)
      requires Unique(table)
      modifies this
      ensures e == old(UpdateError(queue, id, receiptHandle, u))
      ensures table == if e.Some? then old(table)
                       else old(table)[(id, queue) := Changed(u, now)(old(table)[(id, queue)])]
    {
      if u.visibilityTimeoutMs.None? && u.priority.None? && u.attributes.None? {
        return Some(NothingToUpdate);
      }
      var results := UpdateRows(table, queue, ById(id, receiptHandle), Changed(u, now));
      SelectedById(table, queue, id, receiptHandle, Changed(u, now));
      table := After(table, results);
      if results.Effect? && results.changes != 1 {
        if (id, queue) !in table {
          return Some(MessageNotFound);
        }
        return Some(InvalidReceiptHandle);
      }
      return None;
    }

    /** One UPDATE: every visible row changes queue, or, if one of them clashes with a row of the
        target, none does. */
    method MoveMessages(source: string, target: string, retentionMs: Option<int>, now: Instant)
      returns (movedMessageCount: Option<nat>)
      requires Unique(table)
      modifies this
      ensures movedMessageCount.None? <==> MoveClashes(old(table), source, target, now)
      ensures movedMessageCount.None? ==> table == old(table)
      ensures movedMessageCount.Some? ==>
                && movedMessageCount.value == |VisibleKeys(old(table), source, now)|
                && Unique(table) && Moved(old(table), table, source, target, Until(retentionMs, now), now)
    {
      var results := RequeueRows(table, source, target, IsVisible(now), Requeued(retentionMs, now));
      MoveExactly(table, source, target, retentionMs, now);
      match results
      case Effect(t, changes) =>
        table := t;
        return Some(changes);
      case Violated =>
        return None;
    }
  }
}
