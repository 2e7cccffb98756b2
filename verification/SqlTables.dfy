/** The message table of the SQL store: the queries of packages/store-sql/src/sql/Sql.ts as
    predicates and updates over a set of rows. A statement that would break a unique index
    fails and changes nothing. */
module SqlTables {
  import opened Basics
  import opened Messages
  import opened Queues

  /** A row without its primary key (id, queue_name). */
  datatype Row = Row(
    priority: int,
    sentAt: Instant,
    orderBy: Instant,
    retainUntil: Option<Instant>,
    body: string,
    receiveCount: nat,
    attributes: Attributes,
    expiresAt: Option<Instant>,
    delayUntil: Option<Instant>,
    lastNakReason: Option<string>,
    deduplicationId: Option<string>,
    receiptHandle: Option<Id>,
    firstReceivedAt: Option<Instant>)
  {
    /** The last branch of the count queries: expires_at IS NOT NULL AND expires_at >= now. */
    predicate Unexpired(now: Instant) { expiresAt.Some? && expiresAt.value >= now }

    predicate Delayed(now: Instant) { delayUntil.Some? && now < delayUntil.value }

    predicate Lapsed(now: Instant) { expiresAt.Some? && now > expiresAt.value }

    /** The condition receive, peek and move share. */
    predicate Visible(now: Instant) {
      (expiresAt.None? || now > expiresAt.value) && (delayUntil.None? || now >= delayUntil.value)
    }
  }

  type Key = (Id, string)

  type Table = map<Key, Row>

  function RowsOf(t: Table, queue: string): (r: map<Id, Row>)
    ensures forall x :: x in r <==> (x, queue) in t
    ensures forall x | x in r :: r[x] == t[(x, queue)]
  {
    map k | k in t && k.1 == queue :: k.0 := t[k]
  }

  // ---- the receive query

  /** The limit passed to the query: a large number when none is set. */
  function QueryLimit(maxReceiveCount: Option<int>): int {
    if maxReceiveCount.Some? then maxReceiveCount.value else 1000000
  }

  /** The WHERE clause of `findMessagesToReceive`. */
  predicate Matches(r: Row, now: Instant, maxReceiveCount: Option<int>) {
    r.Visible(now) && r.receiveCount < QueryLimit(maxReceiveCount)
  }

  /** ORDER BY priority DESC, order_by. */
  function RowCompare(a: Row, b: Row): int {
    if a.priority != b.priority then b.priority - a.priority else a.orderBy - b.orderBy
  }

  ghost predicate AllDiffer(ids: seq<Id>) {
    forall i, j | 0 <= i < j < |ids| :: ids[i] != ids[j]
  }

  /** An answer the database may give to the query with LIMIT `count`: matching rows in order,
      as many as fit, and no row left out that would come strictly before one given, as if no other
      transaction held a lock on a row. */
  ghost predicate IsAnswer(rows: map<Id, Row>, now: Instant, maxReceiveCount: Option<int>, count: nat, ids: seq<Id>) {
    && AllDiffer(ids) && |ids| <= count
    && (forall i | 0 <= i < |ids| :: ids[i] in rows && Matches(rows[ids[i]], now, maxReceiveCount))
    && (forall i, j | 0 <= i < j < |ids| :: RowCompare(rows[ids[i]], rows[ids[j]]) <= 0)
    && (forall x | x in rows && Matches(rows[x], now, maxReceiveCount) && x !in ids ::
          |ids| == count && forall i | 0 <= i < |ids| :: RowCompare(rows[ids[i]], rows[x]) <= 0)
  }

  function Elements(ids: seq<Id>): set<Id> {
    set x | x in ids
  }

  lemma {:induction false} DifferCount(ids: seq<Id>)
    requires AllDiffer(ids)
    ensures |Elements(ids)| == |ids|
  {
    if ids == [] {
      assert Elements(ids) == {};
    } else {
      DifferCount(ids[1..]);
      assert Elements(ids) == Elements(ids[1..]) + {ids[0]};
    }
  }

  lemma {:induction false} PrefixCount(ids: seq<Id>)
    ensures |Elements(ids)| <= |ids|
  {
    if ids == [] {
      assert Elements(ids) == {};
    } else {
      PrefixCount(ids[1..]);
      assert Elements(ids) == Elements(ids[1..]) + {ids[0]};
    }
  }

  lemma SubsetCount(a: set<Id>, b: set<Id>)
    requires a <= b
    ensures |a| <= |b|
  {
    assert b == a + (b - a);
  }

  /** The pigeonhole step: a longer list of different ids has one the shorter list lacks. */
  lemma Pigeon(a: seq<Id>, b: seq<Id>) returns (k: nat)
    requires AllDiffer(a) && |a| > |b|
    ensures k < |a| && a[k] !in b
  {
    DifferCount(a);
    PrefixCount(b);
    if Elements(a) <= Elements(b) {
      SubsetCount(Elements(a), Elements(b));
    }
    var x :| x in Elements(a) && x !in Elements(b);
    k :| k < |a| && a[k] == x;
  }

  lemma AnswerNotBefore(rows: map<Id, Row>, now: Instant, max: Option<int>, count: nat, a: seq<Id>, b: seq<Id>, i: nat)
    requires IsAnswer(rows, now, max, count, a) && IsAnswer(rows, now, max, count, b) && i < |a| && i < |b|
    ensures RowCompare(rows[b[i]], rows[a[i]]) <= 0
  {
    var k := Pigeon(a[..i + 1], b[..i]);
    assert RowCompare(rows[a[k]], rows[a[i]]) <= 0;
    if a[k] in b {
      var j :| 0 <= j < |b| && b[j] == a[k];
      NotInPrefix(b, i, j);
    }
    assert RowCompare(rows[b[i]], rows[a[k]]) <= 0;
  }

  lemma NotInPrefix(s: seq<Id>, i: nat, j: nat)
    requires i <= |s| && j < |s| && s[j] !in s[..i]
    ensures i <= j
  {
  }

  lemma AnswerNotShorter(rows: map<Id, Row>, now: Instant, max: Option<int>, count: nat, a: seq<Id>, b: seq<Id>)
    requires IsAnswer(rows, now, max, count, a) && IsAnswer(rows, now, max, count, b)
    ensures |a| >= |b|
  {
    if |a| < |b| {
      var k := Pigeon(b, a);
    }
  }

  /** The query has one answer up to ties: all answers are equally long and agree, position by
      position, on priority and order time. */
  lemma AnswersTie(rows: map<Id, Row>, now: Instant, max: Option<int>, count: nat, a: seq<Id>, b: seq<Id>)
    requires IsAnswer(rows, now, max, count, a) && IsAnswer(rows, now, max, count, b)
    ensures |a| == |b|
    ensures forall i | 0 <= i < |a| ::
              rows[a[i]].priority == rows[b[i]].priority && rows[a[i]].orderBy == rows[b[i]].orderBy
  {
    AnswerNotShorter(rows, now, max, count, a, b);
    AnswerNotShorter(rows, now, max, count, b, a);
    forall i | 0 <= i < |a|
      ensures rows[a[i]].priority == rows[b[i]].priority && rows[a[i]].orderBy == rows[b[i]].orderBy
    {
      AnswerNotBefore(rows, now, max, count, a, b, i);
      AnswerNotBefore(rows, now, max, count, b, a, i);
    }
  }


  // ---- the WHERE and SET clauses

  function ById(id: Id, handle: Option<Id>): (Id, Row) -> bool {
    (x: Id, r: Row) => x == id && (handle.None? || r.receiptHandle == handle)
  }

  function ByHandle(handle: Id): (Id, Row) -> bool {
    (x: Id, r: Row) => r.receiptHandle == Some(handle)
  }

  function OverLimit(limit: int, now: Instant): (Id, Row) -> bool {
    (x: Id, r: Row) => r.Lapsed(now) && r.receiveCount >= limit
  }

  function IsLapsed(now: Instant): (Id, Row) -> bool { (x: Id, r: Row) => r.Lapsed(now) }

  function IsVisible(now: Instant): (Id, Row) -> bool { (x: Id, r: Row) => r.Visible(now) }

  function IsOverRetention(now: Instant): (Id, Row) -> bool {
    (x: Id, r: Row) => r.retainUntil.Some? && now > r.retainUntil.value
  }

  function Any(): (Id, Row) -> bool { (x: Id, r: Row) => true }

  function Until(ms: Option<int>, now: Instant): Option<Instant> {
    if ms.None? then None else Some(now + ms.value)
  }

  function Extended(ms: int, now: Instant): Row -> Row { (r: Row) => r.(expiresAt := Some(now + ms)) }

  function Changed(u: MessageUpdate, now: Instant): Row -> Row {
    (r: Row) =>
      r.(expiresAt := if u.visibilityTimeoutMs.Some? then Some(now + u.visibilityTimeoutMs.value) else r.expiresAt,
         priority := if u.priority.Some? then u.priority.value else r.priority,
         attributes := if u.attributes.Some? then u.attributes.value else r.attributes)
  }

  /** The handle stays, unlike in memory. */
  function Nakked(reason: Option<string>, now: Instant): Row -> Row {
    (r: Row) => r.(expiresAt := Some(now - 1), lastNakReason := reason)
  }

  function DeadLettered(ms: Option<int>, now: Instant): Row -> Row {
    (r: Row) => r.(expiresAt := Until(ms, now), receiveCount := 0, receiptHandle := None, sentAt := now, orderBy := now)
  }

  function Reordered(now: Instant): Row -> Row {
    (r: Row) => r.(expiresAt := None, receiptHandle := None, orderBy := now)
  }

  function Lowered(amount: int): Row -> Row {
    (r: Row) => r.(expiresAt := None, receiptHandle := None, priority := r.priority - amount)
  }

  function Requeued(ms: Option<int>, now: Instant): Row -> Row { (r: Row) => r.(retainUntil := Until(ms, now)) }

  // ---- statements

  /** No two rows of a queue share a deduplication id and, NULL counting as one value, a receipt
      handle. A row without a deduplication id stands for one that has its own message id there. */
  predicate Unique(t: Table) {
    forall k, k' | k in t && k' in t && k != k' :: Apart(t, k, k')
  }

  predicate Apart(t: Table, k: Key, k': Key)
    requires k in t && k' in t
  {
    k.1 == k'.1 && t[k].deduplicationId.Some? ==>
      t[k].deduplicationId != t[k'].deduplicationId || t[k].receiptHandle != t[k'].receiptHandle
  }

  /** The table after a statement and the number of rows it changed, or a broken constraint. */
  datatype Effect = Effect(table: Table, changes: nat) | Violated

  function Checked(t: Table, changes: nat): Effect {
    if Unique(t) then Effect(t, changes) else Violated
  }

  function After(t: Table, e: Effect): Table {
    if e.Violated? then t else e.table
  }

  /** The keys of the rows of a queue that a WHERE clause selects. */
  function Selected(t: Table, queue: string, where: (Id, Row) -> bool): set<Key> {
    set k | k in t && k.1 == queue && where(k.0, t[k])
  }

  function UpdateRows(t: Table, queue: string, where: (Id, Row) -> bool, f: Row -> Row): Effect {
    var keys := Selected(t, queue, where);
    Checked(map k | k in t :: if k in keys then f(t[k]) else t[k], |keys|)
  }

  function DeleteRows(t: Table, queue: string, where: (Id, Row) -> bool): Effect {
    var keys := Selected(t, queue, where);
    Effect(t - keys, |keys|)
  }

  /** The rows of the keys, all of one queue, changed and under the queue name `target`. */
  function Rekeyed(t: Table, queue: string, keys: set<Key>, target: string, f: Row -> Row): Table
    requires forall k | k in keys :: k in t && k.1 == queue
  {
    (t - keys) + (map k | k in keys :: (k.0, target) := f(t[k]))
  }

  /** An update that also sets queue_name; it breaks the primary key if the target has the id. */
  function RequeueRows(t: Table, queue: string, target: string, where: (Id, Row) -> bool, f: Row -> Row): Effect {
    var keys := Selected(t, queue, where);
    if target != queue && exists k | k in keys :: (k.0, target) in t then Violated
    else Checked(Rekeyed(t, queue, keys, target, f), |keys|)
  }

  function NewRow(body: string, retentionMs: Option<int>, o: SendOptions, now: Instant): Row {
    Row(if o.priority.Some? then o.priority.value else 0,
        now, now,
        Until(retentionMs, now),
        body, 0,
        if o.attributes.Some? then o.attributes.value else map[],
        None,
        if o.delayMs.Some? && o.delayMs.value != 0 then Some(now + o.delayMs.value) else None,
        o.lastNakReason, o.deduplicationId, None, None)
  }

  function InsertRow(t: Table, queue: string, id: Id, row: Row): Effect {
    if (id, queue) in t then Violated else Checked(t[(id, queue) := row], 1)
  }

  function ReceivedRow(r: Row, deadline: Instant, now: Instant, handle: Id): Row {
    r.(expiresAt := Some(deadline), receiptHandle := Some(handle),
       firstReceivedAt := if r.firstReceivedAt.None? then Some(now) else r.firstReceivedAt,
       receiveCount := r.receiveCount + 1)
  }

  /** One UPDATE per row of the answer, with a handle of its own. */
  function ReceiveRows(t: Table, queue: string, answer: seq<Id>, deadline: Instant, now: Instant, nid: Id): Effect
    decreases |answer|
  {
    if answer == [] then Effect(t, 0)
    else if (answer[0], queue) !in t then Violated
    else
      var e := Checked(t[(answer[0], queue) := ReceivedRow(t[(answer[0], queue)], deadline, now, nid)], 1);
      if e.Violated? then Violated else ReceiveRows(e.table, queue, answer[1..], deadline, now, nid + 1)
  }

  datatype Stmt =
    | Insert(queue: string, id: Id, body: string, retentionMs: Option<int>, sendOptions: SendOptions)
    | Receive(queue: string, visibilityTimeoutMs: int, maxReceiveCount: Option<int>, count: nat, answer: seq<Id>)
    | SetVisibility(queue: string, handle: Id, timeMs: int)
    | Change(queue: string, id: Id, maybeHandle: Option<Id>, update: MessageUpdate)
    | Nak(queue: string, id: Id, handle: Id, reason: Option<string>)
    | Delete(queue: string, id: Id, maybeHandle: Option<Id>)
    | DeleteByHandle(queue: string, handle: Id)
    | DeleteOverRetention(queue: string)
    | DeleteOverCount(queue: string, limit: int)
    | DeadLetter(queue: string, target: string, expiresMs: Option<int>, limit: int)
    | MoveToEnd(queue: string)
    | DecreasePriority(queue: string, amount: int)
    | MoveAll(queue: string, target: string, targetRetentionMs: Option<int>)
    | Purge(queue: string)

  /** `updateMessage` is refused when it would set a deadline without naming a handle, or nothing. */
  predicate Allowed(t: Table, st: Stmt, now: Instant) {
    match st
    case Change(_, _, h, u) =>
      && (h.None? ==> u.visibilityTimeoutMs.None?)
      && (u.visibilityTimeoutMs.Some? || u.priority.Some? || u.attributes.Some?)
    case _ => true
  }

  ghost predicate Answered(t: Table, st: Stmt, now: Instant) {
    st.Receive? ==> IsAnswer(RowsOf(t, st.queue), now, st.maxReceiveCount, st.count, st.answer)
  }

  /** AND binds closer than OR in `deleteExpiredMessagesOverReceiveCount`: the receive count is not
      tied to the queue, and a lapsed lease not to the receive count. */
  function OverCount(t: Table, queue: string, limit: int, now: Instant): set<Key> {
    set k | k in t && ((k.1 == queue && t[k].Lapsed(now)) || t[k].receiveCount >= limit)
  }

  function Exec(t: Table, st: Stmt, now: Instant, nid: Id): Effect {
    match st
    case Insert(q, id, body, ms, o) => InsertRow(t, q, id, NewRow(body, ms, o, now))
    case Receive(q, vis, _, _, answer) => ReceiveRows(t, q, answer, now + vis, now, nid)
    case SetVisibility(q, h, ms) => UpdateRows(t, q, ByHandle(h), Extended(ms, now))
    case Change(q, id, h, u) => UpdateRows(t, q, ById(id, h), Changed(u, now))
    case Nak(q, id, h, reason) => UpdateRows(t, q, ById(id, Some(h)), Nakked(reason, now))
    case Delete(q, id, h) => DeleteRows(t, q, ById(id, h))
    case DeleteByHandle(q, h) => DeleteRows(t, q, ByHandle(h))
    case DeleteOverRetention(q) => DeleteRows(t, q, IsOverRetention(now))
    case DeleteOverCount(q, limit) =>
      var keys := OverCount(t, q, limit + 1, now);
      Effect(t - keys, |keys|)
    case DeadLetter(q, target, ms, limit) => RequeueRows(t, q, target, OverLimit(limit, now), DeadLettered(ms, now))
    case MoveToEnd(q) => UpdateRows(t, q, IsLapsed(now), Reordered(now))
    case DecreasePriority(q, amount) => UpdateRows(t, q, IsLapsed(now), Lowered(amount))
    case MoveAll(q, target, ms) => RequeueRows(t, q, target, IsVisible(now), Requeued(ms, now))
    case Purge(q) => DeleteRows(t, q, Any())
  }

  // ---- what every reachable table keeps

  /** A row that was ever handed out is past its delay, and its handle was created before. */
  ghost predicate RowGood(r: Row, now: Instant, nid: Id) {
    && (r.expiresAt.Some? || r.receiptHandle.Some? ==> !r.Delayed(now))
    && (r.receiptHandle.Some? ==> r.receiptHandle.value < nid)
  }

  ghost predicate Good(t: Table, now: Instant, nid: Id) {
    Unique(t) && forall k | k in t :: RowGood(t[k], now, nid)
  }

  lemma UpdateGood(t: Table, queue: string, where: (Id, Row) -> bool, f: Row -> Row, now: Instant, nid: Id)
    requires Good(t, now, nid)
    requires forall k | k in t && k.1 == queue && where(k.0, t[k]) :: RowGood(f(t[k]), now, nid)
    ensures Good(After(t, UpdateRows(t, queue, where, f)), now, nid)
  {
  }

  lemma RequeueGood(t: Table, queue: string, target: string, where: (Id, Row) -> bool, f: Row -> Row, now: Instant,
          nid: Id)
    requires Good(t, now, nid)
    requires forall k | k in t && k.1 == queue && where(k.0, t[k]) :: RowGood(f(t[k]), now, nid)
    ensures Good(After(t, RequeueRows(t, queue, target, where, f)), now, nid)
  {
  }

  lemma DeleteGood(t: Table, queue: string, where: (Id, Row) -> bool, now: Instant, nid: Id)
    requires Good(t, now, nid)
    ensures Good(After(t, DeleteRows(t, queue, where)), now, nid)
  {
  }

  /** Receiving with a fresh handle cannot break the deduplication index. */
  lemma ReceiveOneGood(t: Table, queue: string, id: Id, deadline: Instant, now: Instant, nid: Id)
    requires Good(t, now, nid) && (id, queue) in t && !t[(id, queue)].Delayed(now)
    ensures Good(t[(id, queue) := ReceivedRow(t[(id, queue)], deadline, now, nid)], now, nid + 1)
  {
  }

  /** The rows of the answer are there, and not delayed. */
  ghost predicate Receivable(t: Table, queue: string, answer: seq<Id>, now: Instant) {
    AllDiffer(answer) && forall i | 0 <= i < |answer| :: (answer[i], queue) in t && !t[(answer[i], queue)].Delayed(now)
  }

  lemma ReceivableRest(t: Table, queue: string, answer: seq<Id>, deadline: Instant, now: Instant, nid: Id)
    requires answer != [] && Receivable(t, queue, answer, now)
    ensures Receivable(t[(answer[0], queue) := ReceivedRow(t[(answer[0], queue)], deadline, now, nid)],
                       queue, answer[1..], now)
  {
  }

  /** A receive never fails on an index, and keeps the rows it does not list. */
  lemma {:induction false} ReceiveGood(t: Table, queue: string, answer: seq<Id>, deadline: Instant, now: Instant,
          nid: Id)
    requires Good(t, now, nid) && Receivable(t, queue, answer, now)
    ensures var e := ReceiveRows(t, queue, answer, deadline, now, nid);
            && e.Effect? && Good(After(t, e), now, nid + |answer|) && e.table.Keys == t.Keys
    decreases |answer|
  {
    if answer != [] {
      var x := answer[0];
      ReceiveOneGood(t, queue, x, deadline, now, nid);
      ReceivableRest(t, queue, answer, deadline, now, nid);
      ReceiveGood(t[(x, queue) := ReceivedRow(t[(x, queue)], deadline, now, nid)], queue, answer[1..], deadline, now,
                  nid + 1);
    }
  }

  /** What a receive makes of the row of each message: those listed get a deadline, one delivery
      more and a handle of their own, in the order of the list. */
  lemma {:induction false} ReceiveEach(t: Table, queue: string, answer: seq<Id>, deadline: Instant, now: Instant,
          nid: Id, k: Key)
    requires Good(t, now, nid) && Receivable(t, queue, answer, now) && k in t
    ensures var e := ReceiveRows(t, queue, answer, deadline, now, nid);
            && e.Effect? && k in e.table
            && (k.1 != queue || k.0 !in answer ==> e.table[k] == t[k])
            && (forall i | 0 <= i < |answer| && k == (answer[i], queue) ::
                  e.table[k] == ReceivedRow(t[k], deadline, now, nid + i))
    decreases |answer|
  {
    if answer != [] {
      var x := answer[0];
      var t1 := t[(x, queue) := ReceivedRow(t[(x, queue)], deadline, now, nid)];
      ReceiveOneGood(t, queue, x, deadline, now, nid);
      ReceivableRest(t, queue, answer, deadline, now, nid);
      ReceiveEach(t1, queue, answer[1..], deadline, now, nid + 1, k);
      assert answer == [x] + answer[1..];
    }
  }

  lemma AnsweredIsReceivable(t: Table, queue: string, now: Instant, max: Option<int>, count: nat, answer: seq<Id>)
    requires IsAnswer(RowsOf(t, queue), now, max, count, answer)
    ensures Receivable(t, queue, answer, now)
  {
  }

  lemma UpdatesGood(t: Table, st: Stmt, now: Instant, nid: Id)
    requires Good(t, now, nid) && Allowed(t, st, now)
    requires st.SetVisibility? || st.Change? || st.Nak? || st.MoveToEnd? || st.DecreasePriority?
    ensures Good(After(t, Exec(t, st, now, nid)), now, nid)
  {
    match st
    case SetVisibility(q, h, ms) => UpdateGood(t, q, ByHandle(h), Extended(ms, now), now, nid);
    case Change(q, id, h, u) => UpdateGood(t, q, ById(id, h), Changed(u, now), now, nid);
    case Nak(q, id, h, reason) => UpdateGood(t, q, ById(id, Some(h)), Nakked(reason, now), now, nid);
    case MoveToEnd(q) => UpdateGood(t, q, IsLapsed(now), Reordered(now), now, nid);
    case DecreasePriority(q, amount) => UpdateGood(t, q, IsLapsed(now), Lowered(amount), now, nid);
  }

  lemma DeadLetterGood(t: Table, queue: string, target: string, ms: Option<int>, limit: int, now: Instant, nid: Id)
    requires Good(t, now, nid)
    ensures Good(After(t, RequeueRows(t, queue, target, OverLimit(limit, now), DeadLettered(ms, now))), now, nid)
  {
    RequeueGood(t, queue, target, OverLimit(limit, now), DeadLettered(ms, now), now, nid);
  }

  lemma MoveAllGood(t: Table, queue: string, target: string, ms: Option<int>, now: Instant, nid: Id)
    requires Good(t, now, nid)
    ensures Good(After(t, RequeueRows(t, queue, target, IsVisible(now), Requeued(ms, now))), now, nid)
  {
    RequeueGood(t, queue, target, IsVisible(now), Requeued(ms, now), now, nid);
  }

  lemma MovesGood(t: Table, st: Stmt, now: Instant, nid: Id)
    requires Good(t, now, nid) && (st.DeadLetter? || st.MoveAll?)
    ensures Good(After(t, Exec(t, st, now, nid)), now, nid)
  {
    if st.DeadLetter? {
      DeadLetterGood(t, st.queue, st.target, st.expiresMs, st.limit, now, nid);
    } else {
      MoveAllGood(t, st.queue, st.target, st.targetRetentionMs, now, nid);
    }
  }

  lemma DeletesGood(t: Table, st: Stmt, now: Instant, nid: Id)
    requires Good(t, now, nid)
    requires st.Delete? || st.DeleteByHandle? || st.DeleteOverRetention? || st.DeleteOverCount? || st.Purge?
    ensures Good(After(t, Exec(t, st, now, nid)), now, nid)
  {
    match st
    case Delete(q, id, h) => DeleteGood(t, q, ById(id, h), now, nid);
    case DeleteByHandle(q, h) => DeleteGood(t, q, ByHandle(h), now, nid);
    case DeleteOverRetention(q) => DeleteGood(t, q, IsOverRetention(now), now, nid);
    case Purge(q) => DeleteGood(t, q, Any(), now, nid);
    case DeleteOverCount(q, limit) =>
  }

  lemma InsertGood(t: Table, queue: string, id: Id, row: Row, now: Instant, nid: Id)
    requires Good(t, now, nid) && RowGood(row, now, nid)
    ensures Good(After(t, InsertRow(t, queue, id, row)), now, nid)
  {
  }

  function NextId(st: Stmt, nid: Id): Id {
    if st.Receive? then nid + |st.answer| else nid
  }

  lemma ReceiveStmtGood(t: Table, st: Stmt, now: Instant, nid: Id)
    requires Good(t, now, nid) && st.Receive? && Answered(t, st, now)
    ensures Good(After(t, Exec(t, st, now, nid)), now, NextId(st, nid)) && Exec(t, st, now, nid).Effect?
  {
    AnsweredIsReceivable(t, st.queue, now, st.maxReceiveCount, st.count, st.answer);
    ReceivableStmtGood(t, st, now, nid);
  }

  lemma ReceivableStmtGood(t: Table, st: Stmt, now: Instant, nid: Id)
    requires Good(t, now, nid) && st.Receive? && Receivable(t, st.queue, st.answer, now)
    ensures Good(After(t, Exec(t, st, now, nid)), now, NextId(st, nid)) && Exec(t, st, now, nid).Effect?
  {
    ReceiveGood(t, st.queue, st.answer, now + st.visibilityTimeoutMs, now, nid);
  }

  lemma ExecGood(t: Table, st: Stmt, now: Instant, nid: Id)
    requires Good(t, now, nid) && Allowed(t, st, now) && Answered(t, st, now)
    ensures Good(After(t, Exec(t, st, now, nid)), now, NextId(st, nid))
    ensures st.Receive? ==> Exec(t, st, now, nid).Effect?
  {
    if st.Receive? {
      ReceiveStmtGood(t, st, now, nid);
    } else if st.Insert? {
      InsertGood(t, st.queue, st.id, NewRow(st.body, st.retentionMs, st.sendOptions, now), now, nid);
    } else if st.DeadLetter? || st.MoveAll? {
      MovesGood(t, st, now, nid);
    } else if st.Delete? || st.DeleteByHandle? || st.DeleteOverRetention? || st.DeleteOverCount? || st.Purge? {
      DeletesGood(t, st, now, nid);
    } else {
      UpdatesGood(t, st, now, nid);
    }
  }

  // ---- runs

  datatype Database = Database(table: Table, now: Instant, nextId: Id)

  datatype Event = Executes(st: Stmt) | Waits(ms: nat)

  ghost predicate StepAt(ds: seq<Database>, es: seq<Event>, i: nat) {
    && i < |es| && i + 1 < |ds|
    && match es[i]
       case Waits(ms) => ds[i + 1] == ds[i].(now := ds[i].now + ms)
       case Executes(st) =>
         && Allowed(ds[i].table, st, ds[i].now) && Answered(ds[i].table, st, ds[i].now)
         && ds[i + 1] == Database(After(ds[i].table, Exec(ds[i].table, st, ds[i].now, ds[i].nextId)), ds[i].now,
                                  NextId(st, ds[i].nextId))
  }

  /** A run of statements against a table that was empty at first; the statements of a transaction
      follow each other, and each state of a run is also a state a transaction may commit. */
  ghost predicate IsRun(ds: seq<Database>, es: seq<Event>) {
    |ds| == |es| + 1 && ds[0].table == map[] && forall i | 0 <= i < |es| :: StepAt(ds, es, i)
  }

  lemma {:induction false} GoodAfter(ds: seq<Database>, es: seq<Event>, i: nat)
    requires IsRun(ds, es) && i <= |es|
    ensures Good(ds[i].table, ds[i].now, ds[i].nextId)
  {
    if i > 0 {
      GoodAfter(ds, es, i - 1);
      assert StepAt(ds, es, i - 1);
      if es[i - 1].Executes? {
        ExecGood(ds[i - 1].table, es[i - 1].st, ds[i - 1].now, ds[i - 1].nextId);
      }
    }
  }

  // ---- deleting over the receive count

  /** What `OverCount` selects of a row and what was meant agree. */
  predicate MeantAt(t: Table, queue: string, limit: int, now: Instant, k: Key)
    requires k in t
  {
    && (k.1 != queue ==> t[k].receiveCount < limit)
    && (k.1 == queue ==> (t[k].Lapsed(now) <==> t[k].receiveCount >= limit))
  }

  /** Exactly when the statement deletes the rows it was meant to, those of the queue whose lease lapsed
      at the limit: no row of another queue is at the limit, and those of its own at the limit are
      those that lapsed. */
  lemma OverCountExactly(t: Table, queue: string, limit: int, now: Instant)
    ensures OverCount(t, queue, limit, now) == Selected(t, queue, OverLimit(limit, now))
            <==> forall k | k in t :: MeantAt(t, queue, limit, now, k)
  {
    var deleted, meant := OverCount(t, queue, limit, now), Selected(t, queue, OverLimit(limit, now));
    if deleted == meant {
      forall k | k in t ensures MeantAt(t, queue, limit, now, k) {
        assert k in deleted <==> k in meant;
      }
    } else {
      assert !(forall k | k in t :: MeantAt(t, queue, limit, now, k)) by {
        var k :| k in t && (k in deleted) != (k in meant);
        assert !MeantAt(t, queue, limit, now, k);
      }
    }
  }

  const Plain := SendOptions(None, None, None, None, None)

  /** The row of a message sent at time zero with no options. */
  function SentRow(): Row { NewRow("m", None, Plain, 0) }

  /** Sends to two queues, receives both without a lease, and the one of "b" again a millisecond later;
      then the delete for queue "a" with limit one. */
  const Wiping: seq<Event> := [
    Executes(Insert("a", 0, "m", None, Plain)),
    Executes(Insert("b", 1, "m", None, Plain)),
    Executes(Receive("a", 0, None, 1, [0])),
    Executes(Receive("b", 0, None, 1, [1])),
    Waits(1),
    Executes(Receive("b", 0, None, 1, [1])),
    Executes(DeleteOverCount("a", 1))]

  /** The tables of that run. */
  function WipedTables(): seq<Table> {
    var r0 := SentRow();
    var ra, rb := ReceivedRow(r0, 0, 0, 0), ReceivedRow(r0, 0, 0, 1);
    [map[],
     map[(0, "a") := r0],
     map[(0, "a") := r0, (1, "b") := r0],
     map[(0, "a") := ra, (1, "b") := r0],
     map[(0, "a") := ra, (1, "b") := rb],
     map[(0, "a") := ra, (1, "b") := rb],
     map[(0, "a") := ra, (1, "b") := ReceivedRow(rb, 1, 1, 2)],
     map[]]
  }

  function WipedRun(): seq<Database> {
    var ts := WipedTables();
    [Database(ts[0], 0, 0), Database(ts[1], 0, 0), Database(ts[2], 0, 0), Database(ts[3], 0, 1),
     Database(ts[4], 0, 2), Database(ts[5], 1, 2), Database(ts[6], 1, 3), Database(ts[7], 1, 3)]
  }

  /** The one visible row of a queue is the only answer to a receive. */
  lemma ReceivesOnly(t: Table, queue: string, id: Id, now: Instant)
    requires (id, queue) in t && Matches(t[(id, queue)], now, None) && forall k | k in t && k.1 == queue :: k.0 == id
    ensures IsAnswer(RowsOf(t, queue), now, None, 1, [id])
  {
  }

  /** A receive of that row without a lease, as a step of a run. */
  lemma ReceivesOneStep(ds: seq<Database>, es: seq<Event>, i: nat, queue: string, id: Id)
    requires i < |es| && i + 1 < |ds| && es[i] == Executes(Receive(queue, 0, None, 1, [id]))
    requires var t := ds[i].table;
             && (id, queue) in t && Matches(t[(id, queue)], ds[i].now, None)
             && forall k | k in t && k.1 == queue :: k.0 == id
    requires var t, now, nid := ds[i].table, ds[i].now, ds[i].nextId;
             && ds[i + 1] == Database(t[(id, queue) := ReceivedRow(t[(id, queue)], now, now, nid)], now, nid + 1)
             && Unique(ds[i + 1].table)
    ensures StepAt(ds, es, i)
  {
    var t, t', now, nid := ds[i].table, ds[i + 1].table, ds[i].now, ds[i].nextId;
    ReceivesOnly(t, queue, id, now);
    assert [id][1..] == [];
    assert ReceiveRows(t', queue, [], now, now, nid + 1) == Effect(t', 0);
    assert ReceiveRows(t, queue, [id], now, now, nid) == Effect(t', 0);
  }

  lemma WipingSends()
    ensures StepAt(WipedRun(), Wiping, 0) && StepAt(WipedRun(), Wiping, 1) && StepAt(WipedRun(), Wiping, 4)
  {
  }

  lemma WipingReceives()
    ensures StepAt(WipedRun(), Wiping, 2) && StepAt(WipedRun(), Wiping, 3)
  {
    ReceivesOneStep(WipedRun(), Wiping, 2, "a", 0);
    ReceivesOneStep(WipedRun(), Wiping, 3, "b", 1);
  }

  lemma WipingReceivesAgain()
    ensures StepAt(WipedRun(), Wiping, 5)
  {
    ReceivesOneStep(WipedRun(), Wiping, 5, "b", 1);
  }

  lemma WipingDeletes()
    ensures StepAt(WipedRun(), Wiping, 6)
  {
    assert OverCount(WipedTables()[6], "a", 2, 1) == {(0, "a"), (1, "b")};
  }

  lemma SevenSteps(ds: seq<Database>, es: seq<Event>)
    requires |es| == 7 && |ds| == 8 && ds[0].table == map[]
    requires StepAt(ds, es, 0) && StepAt(ds, es, 1) && StepAt(ds, es, 2) && StepAt(ds, es, 3)
    requires StepAt(ds, es, 4) && StepAt(ds, es, 5) && StepAt(ds, es, 6)
    ensures IsRun(ds, es)
  {
  }

  /** A statement for queue "a" deletes the row of queue "b", which was just received and is held, and
      the one row of "a", received no more often than its limit allows: the table is empty. */
  lemma DeleteWipesOthers()
    ensures var ds := WipedRun();
            && IsRun(ds, Wiping)
            && ds[6].table.Keys == {(0, "a"), (1, "b")} && ds[6].table[(1, "b")].Unexpired(ds[6].now)
            && ds[6].table[(0, "a")].receiveCount == 1 && ds[7].table == map[]
  {
    WipingSends();
    WipingReceives();
    WipingReceivesAgain();
    WipingDeletes();
    SevenSteps(WipedRun(), Wiping);
    WipedAtTheEnd();
  }

  lemma WipedAtTheEnd()
    ensures var ds := WipedRun();
            && ds[6].table.Keys == {(0, "a"), (1, "b")} && ds[6].table[(1, "b")].Unexpired(ds[6].now)
            && ds[6].table[(0, "a")].receiveCount == 1 && ds[7].table == map[]
  {
  }

  // ---- counting

  function VisibleKeys(t: Table, queue: string, now: Instant): set<Key> {
    Selected(t, queue, (x: Id, r: Row) =>
      (r.expiresAt.None? || r.expiresAt.value < now) && (r.delayUntil.None? || now >= r.delayUntil.value))
  }

  function DelayedKeys(t: Table, queue: string, now: Instant): set<Key> {
    Selected(t, queue, (x: Id, r: Row) => r.Delayed(now))
  }

  function NotVisibleKeys(t: Table, queue: string, now: Instant): set<Key> {
    Selected(t, queue, (x: Id, r: Row) => r.Unexpired(now))
  }

  function QueueKeys(t: Table, queue: string): set<Key> {
    set k | k in t && k.1 == queue
  }

  /** The three count queries miss no row, and count twice exactly those both delayed and held. */
  lemma CountsExactly(t: Table, queue: string, now: Instant)
    ensures |VisibleKeys(t, queue, now)| + |DelayedKeys(t, queue, now)| + |NotVisibleKeys(t, queue, now)|
         == |QueueKeys(t, queue)| + |DelayedKeys(t, queue, now) * NotVisibleKeys(t, queue, now)|
  {
    var v, d, n := VisibleKeys(t, queue, now), DelayedKeys(t, queue, now), NotVisibleKeys(t, queue, now);
    assert v + (d + n) == QueueKeys(t, queue);
    assert v * (d + n) == {};
  }

  /** In every state of every run the three independent counts partition the rows of a queue,
      so their sum is the number of its messages. */
  lemma CountsPartition(ds: seq<Database>, es: seq<Event>, i: nat, queue: string)
    requires IsRun(ds, es) && i <= |es|
    ensures var t, now := ds[i].table, ds[i].now;
            && VisibleKeys(t, queue, now) + DelayedKeys(t, queue, now) + NotVisibleKeys(t, queue, now)
               == QueueKeys(t, queue)
            && DelayedKeys(t, queue, now) !! NotVisibleKeys(t, queue, now)
            && |VisibleKeys(t, queue, now)| + |DelayedKeys(t, queue, now)| + |NotVisibleKeys(t, queue, now)|
               == |QueueKeys(t, queue)|
  {
    GoodAfter(ds, es, i);
    CountsExactly(ds[i].table, queue, ds[i].now);
    assert DelayedKeys(ds[i].table, queue, ds[i].now) * NotVisibleKeys(ds[i].table, queue, ds[i].now) == {};
  }
}
