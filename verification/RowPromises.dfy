/** What the statements of the SQL store promise about each row, field by field and instant by instant
    (packages/store-sql/src/sql/Sql.ts). */
module RowPromises {
  import opened Basics
  import opened Queues
  import opened SqlTables
  import opened Dialects

  /** No receive, peek or move finds the row through this instant; afterwards all do once its delay is over. */
  ghost predicate HiddenThrough(r: Row, deadline: Instant) {
    && (forall t | t <= deadline :: !r.Visible(t))
    && (forall t | t > deadline :: r.Visible(t) <==> !r.Delayed(t))
  }

  predicate UnderLimit(r: Row, maxReceiveCount: Option<int>) {
    match maxReceiveCount
    case Some(max) => r.receiveCount < max
    case None => r.receiveCount < 1000000
  }

  /** The statement changed the row of the key at most. */
  ghost predicate OnlyRow(t: Table, t': Table, k: Key) {
    k in t && t'.Keys == t.Keys && forall x | x in t && x != k :: t'[x] == t[x]
  }

  // ---- inserting

  /** A new row: to be found from the delay on that was asked for, if that is not zero. */
  ghost predicate RowAsSent(r: Row, body: string, retentionMs: Option<int>, o: SendOptions, now: Instant) {
    && r.body == body && r.receiveCount == 0 && r.receiptHandle.None? && r.expiresAt.None? && r.firstReceivedAt.None?
    && r.sentAt == now && r.orderBy == now
    && (match o.delayMs
        case Some(ms) => if ms == 0 then forall t :: r.Visible(t) else forall t :: r.Visible(t) <==> t >= now + ms
        case None => forall t :: r.Visible(t))
    && (match retentionMs
        case Some(ms) => forall t, x :: IsOverRetention(t)(x, r) <==> t > now + ms
        case None => forall t, x :: !IsOverRetention(t)(x, r))
    && (match o.priority case Some(p) => r.priority == p case None => r.priority == 0)
    && (match o.attributes case Some(a) => r.attributes == a case None => r.attributes == map[])
    && r.lastNakReason == o.lastNakReason && r.deduplicationId == o.deduplicationId
  }

  /** An insert fails exactly if the queue has the id, or a row without a handle with the deduplication id;
      else it adds this one row. */
  lemma InsertExactly(t: Table, st: Stmt, now: Instant, nid: Id)
    requires Unique(t) && st.Insert?
    ensures var e, k := Exec(t, st, now, nid), (st.id, st.queue);
            && (e.Violated? <==>
                  k in t || exists x | x in t ::
                              x.1 == st.queue && t[x].deduplicationId.Some? && t[x].receiptHandle.None?
                              && t[x].deduplicationId == st.sendOptions.deduplicationId)
            && (e.Effect? ==> e.table.Keys == t.Keys + {k} && (forall x | x in t :: e.table[x] == t[x])
                              && RowAsSent(e.table[k], st.body, st.retentionMs, st.sendOptions, now))
  {
    var k, row := (st.id, st.queue), NewRow(st.body, st.retentionMs, st.sendOptions, now);
    if k !in t {
      var t' := t[k := row];
      if x :| x in t && x.1 == st.queue && t[x].deduplicationId.Some? && t[x].receiptHandle.None?
              && t[x].deduplicationId == st.sendOptions.deduplicationId {
        assert !Apart(t', x, k);
      } else {
        forall a, b | a in t' && b in t' && a != b ensures Apart(t', a, b) {
          assert a in t && b in t ==> Apart(t, a, b);
        }
      }
    }
  }

  // ---- receiving

  /** The answer to a receive query lists visible rows of the queue under the limit, at most as many as asked
      for, by priority and then order time; what it leaves out comes no earlier, and only for want of room. */
  lemma AnswerListsFirst(t: Table, queue: string, now: Instant, max: Option<int>, count: nat, answer: seq<Id>)
    requires IsAnswer(RowsOf(t, queue), now, max, count, answer)
    ensures |answer| <= count
    ensures forall i | 0 <= i < |answer| ::
              (answer[i], queue) in t && t[(answer[i], queue)].Visible(now) && UnderLimit(t[(answer[i], queue)], max)
    ensures forall i, j | 0 <= i < j < |answer| ::
              answer[i] != answer[j] && NotAfter(t[(answer[i], queue)], t[(answer[j], queue)])
    ensures forall x | x !in answer && (x, queue) in t && t[(x, queue)].Visible(now)
                       && UnderLimit(t[(x, queue)], max) ::
              |answer| == count && forall i | 0 <= i < |answer| :: NotAfter(t[(answer[i], queue)], t[(x, queue)])
  {
  }

  predicate NotAfter(a: Row, b: Row) {
    a.priority > b.priority || (a.priority == b.priority && a.orderBy <= b.orderBy)
  }

  /** A row that is handed out is hidden until its deadline, under a handle of its own, with one delivery more;
      nothing else of it changes. */
  lemma ReceiveHides(t: Table, st: Stmt, now: Instant, nid: Id, i: nat)
    requires Good(t, now, nid) && st.Receive? && Answered(t, st, now) && i < |st.answer|
    ensures var t', k := After(t, Exec(t, st, now, nid)), (st.answer[i], st.queue);
            && k in t && k in t' && t[k].Visible(now)
            && HiddenThrough(t'[k], now + st.visibilityTimeoutMs)
            && t'[k].receiptHandle == Some(nid + i) && t'[k].receiveCount == t[k].receiveCount + 1
            && (match t[k].firstReceivedAt
                case Some(at) => t'[k].firstReceivedAt == Some(at)
                case None => t'[k].firstReceivedAt == Some(now))
            && t'[k] == t[k].(expiresAt := t'[k].expiresAt, receiptHandle := t'[k].receiptHandle,
                              receiveCount := t'[k].receiveCount, firstReceivedAt := t'[k].firstReceivedAt)
  {
    AnsweredIsReceivable(t, st.queue, now, st.maxReceiveCount, st.count, st.answer);
    ReceiveEach(t, st.queue, st.answer, now + st.visibilityTimeoutMs, now, nid, (st.answer[i], st.queue));
  }

  // ---- what the holder of a row may do

  /** A row that is returned can be found at once by anyone, as long as its deliveries allow, and counts as
      visible from now on; it keeps its handle and the reason. */
  lemma NakFrees(t: Table, st: Stmt, now: Instant, nid: Id)
    requires Good(t, now, nid) && st.Nak?
    requires (st.id, st.queue) in t && t[(st.id, st.queue)].receiptHandle == Some(st.handle)
    ensures var e, k := Exec(t, st, now, nid), (st.id, st.queue);
            && e.Effect? && e.changes == 1 && OnlyRow(t, e.table, k)
            && HiddenThrough(e.table[k], now - 1) && e.table[k].Lapsed(now)
            && (forall max: Option<int> :: Matches(e.table[k], now, max) <==> UnderLimit(t[k], max))
            && k in VisibleKeys(e.table, st.queue, now) && k !in NotVisibleKeys(e.table, st.queue, now)
            && e.table[k] == t[k].(expiresAt := e.table[k].expiresAt, lastNakReason := st.reason)
  {
    SelectedById(t, st.queue, st.id, Some(st.handle), Nakked(st.reason, now));
  }

  /** Who does not hold the row neither returns nor changes anything. */
  lemma OthersFail(t: Table, st: Stmt, now: Instant, nid: Id)
    requires Unique(t) && (st.Nak? || (st.Change? && st.maybeHandle.Some?))
    requires var handle := if st.Nak? then Some(st.handle) else st.maybeHandle;
             (st.id, st.queue) !in t || t[(st.id, st.queue)].receiptHandle != handle
    ensures Exec(t, st, now, nid) == Effect(t, 0)
  {
    if st.Nak? {
      SelectedById(t, st.queue, st.id, Some(st.handle), Nakked(st.reason, now));
    } else {
      SelectedById(t, st.queue, st.id, st.maybeHandle, Changed(st.update, now));
    }
  }

  /** A row that is held longer or shorter is hidden until then; the other rows stay. */
  lemma ExtendHides(t: Table, st: Stmt, now: Instant, nid: Id, k: Key)
    requires Unique(t) && st.SetVisibility? && k in t
    ensures var e := Exec(t, st, now, nid);
            && e.Effect? && e.table.Keys == t.Keys
            && if k.1 == st.queue && t[k].receiptHandle == Some(st.handle)
               then HiddenThrough(e.table[k], now + st.timeMs)
                    && e.table[k] == t[k].(expiresAt := e.table[k].expiresAt)
               else e.table[k] == t[k]
  {
    SameIndexes(t, st.queue, ByHandle(st.handle), Extended(st.timeMs, now));
  }

  lemma SameIndexes(t: Table, queue: string, where: (Id, Row) -> bool, f: Row -> Row)
    requires Unique(t)
    requires forall r :: f(r).deduplicationId == r.deduplicationId && f(r).receiptHandle == r.receiptHandle
    ensures UpdateRows(t, queue, where, f).Effect?
  {
    var keys := Selected(t, queue, where);
    var t' := map k | k in t :: if k in keys then f(t[k]) else t[k];
    forall a, b | a in t' && b in t' && a != b ensures Apart(t', a, b) {
      assert Apart(t, a, b);
    }
  }

  /** An update sets exactly what it names, in the row it names. */
  lemma ChangeSets(t: Table, st: Stmt, now: Instant, nid: Id)
    requires Unique(t) && st.Change? && (st.id, st.queue) in t
    requires st.maybeHandle.None? || t[(st.id, st.queue)].receiptHandle == st.maybeHandle
    ensures var e, k, u := Exec(t, st, now, nid), (st.id, st.queue), st.update;
            && e.Effect? && e.changes == 1 && OnlyRow(t, e.table, k)
            && var r, r' := t[k], e.table[k];
               && (match u.priority case Some(p) => r'.priority == p case None => r'.priority == r.priority)
               && (match u.attributes case Some(a) => r'.attributes == a case None => r'.attributes == r.attributes)
               && (match u.visibilityTimeoutMs
                   case Some(ms) => HiddenThrough(r', now + ms)
                   case None => r'.expiresAt == r.expiresAt)
               && r' == r.(priority := r'.priority, attributes := r'.attributes, expiresAt := r'.expiresAt)
  {
    SelectedById(t, st.queue, st.id, st.maybeHandle, Changed(st.update, now));
  }

  // ---- deleting

  /** The lease of the row ended. */
  predicate Over(r: Row, now: Instant) { r.expiresAt.Some? && r.expiresAt.value < now }

  /** Which rows each of the deletes leaves, none of them changed. */
  ghost predicate Leaves(t: Table, t': Table, goes: Key -> bool) {
    && (forall k | k in t' :: k in t && t'[k] == t[k])
    && (forall k | k in t :: k !in t' <==> goes(k))
  }

  lemma DeletesExactly(t: Table, st: Stmt, now: Instant, nid: Id)
    ensures var t' := After(t, Exec(t, st, now, nid));
            match st
            case Delete(q, id, h) =>
              Leaves(t, t', (k: Key) => k in t && k == (id, q) && (h.None? || t[k].receiptHandle == h))
            case DeleteByHandle(q, h) => Leaves(t, t', (k: Key) => k in t && k.1 == q && t[k].receiptHandle == Some(h))
            case DeleteOverRetention(q) =>
              Leaves(t, t', (k: Key) => k in t && k.1 == q && t[k].retainUntil.Some? && t[k].retainUntil.value < now)
            case DeleteOverCount(q, limit) =>
              Leaves(t, t', (k: Key) => k in t && ((k.1 == q && Over(t[k], now)) || t[k].receiveCount > limit))
            case Purge(q) => Leaves(t, t', (k: Key) => k.1 == q)
            case _ => true
  {
  }

  // ---- leases that ended

  /** What a row whose lease ended becomes, when it goes to the end or loses priority. */
  predicate SetBack(st: Stmt, r: Row, r': Row, now: Instant)
    requires st.MoveToEnd? || st.DecreasePriority?
  {
    && r'.expiresAt.None? && r'.receiptHandle.None?
    && r' == r.(expiresAt := None, receiptHandle := None, orderBy := r'.orderBy, priority := r'.priority)
    && match st
       case MoveToEnd(_) => r'.orderBy == now && r'.priority == r.priority
       case DecreasePriority(_, amount) => r'.orderBy == r.orderBy && r'.priority + amount == r.priority
  }

  /** The first loses its handle, and the second has none then. */
  predicate Clashes(t: Table, queue: string, a: Key, b: Key, now: Instant)
    requires a in t && b in t
  {
    && a.1 == queue && b.1 == queue && t[a].deduplicationId.Some? && t[a].deduplicationId == t[b].deduplicationId
    && Over(t[a], now) && (Over(t[b], now) || t[b].receiptHandle.None?)
  }

  ghost predicate AnyClash(t: Table, queue: string, now: Instant) {
    exists a, b | a in t && b in t && a != b :: Clashes(t, queue, a, b, now)
  }

  /** The index after the rows whose lease ended lost their handles. */
  lemma ClearedUnique(t: Table, t': Table, queue: string, now: Instant)
    requires Unique(t) && t'.Keys == t.Keys
    requires forall k | k in t ::
        && t'[k].deduplicationId == t[k].deduplicationId
        && t'[k].receiptHandle == if k.1 == queue && Over(t[k], now) then None else t[k].receiptHandle
    ensures Unique(t') <==> !AnyClash(t, queue, now)
  {
    if AnyClash(t, queue, now) {
      var a, b :| a in t && b in t && a != b && Clashes(t, queue, a, b, now);
      assert !Apart(t', a, b);
    } else {
      forall a, b | a in t' && b in t' && a != b ensures Apart(t', a, b) {
        assert Apart(t, a, b) && !Clashes(t, queue, a, b, now) && !Clashes(t, queue, b, a, now);
      }
    }
  }

  lemma LapsedUpdate(t: Table, queue: string, f: Row -> Row, now: Instant)
    requires Unique(t) && forall r :: f(r).deduplicationId == r.deduplicationId && f(r).receiptHandle.None?
    ensures var e := UpdateRows(t, queue, IsLapsed(now), f);
            && (e.Violated? <==> AnyClash(t, queue, now))
            && (e.Effect? ==> e.table.Keys == t.Keys && forall k | k in t ::
                  e.table[k] == if k.1 == queue && Over(t[k], now) then f(t[k]) else t[k])
  {
    var keys := Selected(t, queue, IsLapsed(now));
    ClearedUnique(t, map k | k in t :: if k in keys then f(t[k]) else t[k], queue, now);
  }

  /** The rows of the queue whose lease ended are set back, and the others stay; it fails exactly if two rows of
      one deduplication id would be without a handle. */
  lemma SetsBack(t: Table, st: Stmt, now: Instant, nid: Id)
    requires Unique(t) && (st.MoveToEnd? || st.DecreasePriority?)
    ensures var e, q := Exec(t, st, now, nid), st.queue;
            && (e.Violated? <==> AnyClash(t, q, now))
            && (e.Effect? ==> e.table.Keys == t.Keys && forall k | k in t ::
                  if k.1 == q && Over(t[k], now) then SetBack(st, t[k], e.table[k], now) else e.table[k] == t[k])
  {
    if st.MoveToEnd? {
      LapsedUpdate(t, st.queue, Reordered(now), now);
    } else {
      LapsedUpdate(t, st.queue, Lowered(st.amount), now);
    }
  }

  /** What an exhausted row becomes in the dead-letter queue: a row never received, sent now, hidden for the
      time given if there is one. */
  ghost predicate StartsAnew(r: Row, r': Row, ms: Option<int>, now: Instant) {
    && r'.receiveCount == 0 && r'.receiptHandle.None? && r'.sentAt == now && r'.orderBy == now
    && (match ms case Some(x) => HiddenThrough(r', now + x) case None => r'.expiresAt.None?)
    && r' == r.(receiveCount := 0, receiptHandle := None, sentAt := now, orderBy := now, expiresAt := r'.expiresAt)
  }

  /** The rows of the queue whose lease ended at the limit are in the dead-letter queue, all others where they
      were. */
  lemma DeadLettersExactly(t: Table, st: Stmt, now: Instant, nid: Id, k: Key)
    requires st.DeadLetter? && st.target != st.queue && Exec(t, st, now, nid).Effect?
    ensures var t' := Exec(t, st, now, nid).table;
            var from := (k.0, st.queue);
            var goes := from in t && Over(t[from], now) && t[from].receiveCount >= st.limit;
            if goes && k.1 == st.target then k in t' && StartsAnew(t[from], t'[k], st.expiresMs, now)
            else if goes && k.1 == st.queue then k !in t'
            else (k in t' <==> k in t) && (k in t ==> t'[k] == t[k])
  {
    var keys := Selected(t, st.queue, OverLimit(st.limit, now));
    assert (k.0, st.queue) in keys <==>
        (k.0, st.queue) in t && Over(t[(k.0, st.queue)], now) && t[(k.0, st.queue)].receiveCount >= st.limit;
  }

  predicate Goes(t: Table, st: Stmt, k: Key, now: Instant)
    requires st.DeadLetter? && k in t
  {
    k.1 == st.queue && Over(t[k], now) && t[k].receiveCount >= st.limit
  }

  /** The row cannot go where the other is or goes too: the id is taken, or both would be without a handle under
      one deduplication id. */
  predicate Blocks(t: Table, st: Stmt, k: Key, other: Key, now: Instant)
    requires st.DeadLetter? && k in t && other in t
  {
    || other == (k.0, st.target)
    || (&& t[k].deduplicationId.Some? && t[k].deduplicationId == t[other].deduplicationId
        && (Goes(t, st, other, now) || (other.1 == st.target && t[other].receiptHandle.None?)))
  }

  ghost predicate AnyBlocked(t: Table, st: Stmt, now: Instant)
    requires st.DeadLetter?
  {
    exists k, other | k in t && other in t && k != other :: Goes(t, st, k, now) && Blocks(t, st, k, other, now)
  }

  /** The key a row had before. */
  function Before(t: Table, st: Stmt, k: Key, now: Instant): Key
    requires st.DeadLetter?
  {
    var from := (k.0, st.queue);
    if k.1 == st.target && from in t && Goes(t, st, from, now) then from else k
  }

  ghost predicate RehousedAt(t: Table, t': Table, st: Stmt, now: Instant, k: Key)
    requires st.DeadLetter?
  {
    var from := (k.0, st.queue);
    if k.1 == st.target && from in t && Goes(t, st, from, now)
    then k in t' && t'[k].receiptHandle.None? && t'[k].deduplicationId == t[from].deduplicationId
    else if k in t && Goes(t, st, k, now) then k !in t'
    else (k in t' <==> k in t) && (k in t ==> t'[k] == t[k])
  }

  ghost predicate Rehoused(t: Table, t': Table, st: Stmt, now: Instant)
    requires st.DeadLetter?
  {
    forall k: Key :: RehousedAt(t, t', st, now, k)
  }

  function RehousedTable(t: Table, st: Stmt, now: Instant): Table
    requires st.DeadLetter?
  {
    Rekeyed(t, st.queue, Selected(t, st.queue, OverLimit(st.limit, now)), st.target, DeadLettered(st.expiresMs, now))
  }

  lemma RowsRehoused(t: Table, st: Stmt, now: Instant)
    requires st.DeadLetter? && st.target != st.queue
    ensures Rehoused(t, RehousedTable(t, st, now), st, now)
  {
    var keys, t' := Selected(t, st.queue, OverLimit(st.limit, now)), RehousedTable(t, st, now);
    forall k: Key ensures RehousedAt(t, t', st, now, k) {
      var from := (k.0, st.queue);
      assert from in keys <==> from in t && Goes(t, st, from, now);
      assert k in keys <==> k in t && Goes(t, st, k, now);
    }
  }

  ghost predicate AnyTaken(t: Table, st: Stmt, now: Instant)
    requires st.DeadLetter?
  {
    exists k | k in t :: Goes(t, st, k, now) && (k.0, st.target) in t
  }

  lemma TakenIsBlocked(t: Table, st: Stmt, now: Instant)
    requires st.DeadLetter? && st.target != st.queue && AnyTaken(t, st, now)
    ensures AnyBlocked(t, st, now)
  {
    var k :| k in t && Goes(t, st, k, now) && (k.0, st.target) in t;
    assert Blocks(t, st, k, (k.0, st.target), now);
  }

  lemma DeadLetterCases(t: Table, st: Stmt, now: Instant, nid: Id)
    requires st.DeadLetter? && st.target != st.queue
    ensures Exec(t, st, now, nid).Violated? <==> AnyTaken(t, st, now) || !Unique(RehousedTable(t, st, now))
  {
    var keys := Selected(t, st.queue, OverLimit(st.limit, now));
    assert forall k :: k in keys <==> k in t && Goes(t, st, k, now);
  }

  lemma BlockedIsApart(t: Table, t': Table, st: Stmt, now: Instant)
    requires st.DeadLetter? && st.target != st.queue && !AnyTaken(t, st, now)
    requires Rehoused(t, t', st, now) && AnyBlocked(t, st, now)
    ensures !Unique(t')
  {
    var k, other :| k in t && other in t && k != other && Goes(t, st, k, now) && Blocks(t, st, k, other, now);
    var a, b := (k.0, st.target), (other.0, st.target);
    assert RehousedAt(t, t', st, now, a) && RehousedAt(t, t', st, now, b);
    assert !Apart(t', a, b);
  }

  lemma NotBlocked(t: Table, t': Table, st: Stmt, now: Instant, a: Key, b: Key)
    requires Unique(t) && st.DeadLetter? && st.target != st.queue && !AnyBlocked(t, st, now)
    requires RehousedAt(t, t', st, now, a) && RehousedAt(t, t', st, now, b) && a in t' && b in t' && a != b
    ensures Apart(t', a, b)
  {
    var from, from' := Before(t, st, a, now), Before(t, st, b, now);
    assert Apart(t, from, from');
    assert Goes(t, st, from, now) ==> !Blocks(t, st, from, from', now);
    assert Goes(t, st, from', now) ==> !Blocks(t, st, from', from, now);
  }

  /** Dead-lettering fails exactly if one row to go is blocked. */
  lemma DeadLetterFails(t: Table, st: Stmt, now: Instant, nid: Id)
    requires Unique(t) && st.DeadLetter? && st.target != st.queue
    ensures Exec(t, st, now, nid).Violated? <==> AnyBlocked(t, st, now)
  {
    DeadLetterCases(t, st, now, nid);
    RowsRehoused(t, st, now);
    var t' := RehousedTable(t, st, now);
    if AnyTaken(t, st, now) {
      TakenIsBlocked(t, st, now);
    } else if AnyBlocked(t, st, now) {
      BlockedIsApart(t, t', st, now);
    } else {
      forall a, b | a in t' && b in t' && a != b ensures Apart(t', a, b) {
        assert RehousedAt(t, t', st, now, a) && RehousedAt(t, t', st, now, b);
        NotBlocked(t, t', st, now, a, b);
      }
    }
  }

  // ---- moving

  /** The retention the queue a row comes to asks for. */
  predicate RetainedAnew(until: Option<Instant>, ms: Option<int>, now: Instant) {
    match ms case Some(x) => until == Some(now + x) case None => until.None?
  }

  /** A move takes the visible rows of the queue along, and no others, unless one of them clashes. */
  lemma MovesExactly(t: Table, st: Stmt, now: Instant, nid: Id) returns (until: Option<Instant>)
    requires Unique(t) && st.MoveAll?
    ensures var e := Exec(t, st, now, nid);
            && (e.Violated? <==> MoveClashes(t, st.queue, st.target, now))
            && (e.Effect? ==> Moved(t, e.table, st.queue, st.target, until, now))
            && RetainedAnew(until, st.targetRetentionMs, now)
  {
    until := Until(st.targetRetentionMs, now);
    MoveExactly(t, st.queue, st.target, st.targetRetentionMs, now);
  }
}
