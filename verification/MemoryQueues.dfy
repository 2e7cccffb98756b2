/** The queue object (packages/store-memory/src/MemoryQueue.ts): its list of messages is
    spliced, sorted and appended to in place, and every method is proved to compute the
    function of `Queues` it stands for. */
module MemoryQueues {
  import opened Basics
  import opened Messages
  import opened Sorting
  import opened Queues
  import opened Triggers

  /** `Array.prototype.splice(i, 1)`. */
  function Splice<T>(s: seq<T>, i: nat): seq<T>
    requires i < |s|
  {
    s[..i] + s[i + 1..]
  }

  lemma {:induction false} FindFirst(ms: seq<Msg>, p: Msg -> bool, i: nat)
    requires i < |ms| && p(ms[i]) && forall j | 0 <= j < i :: !p(ms[j])
    ensures Find(ms, p) == Some(i)
  {
    if i > 0 {
      FindFirst(ms[1..], p, i - 1);
    }
  }

  /** Once the delete loop has thrown, what lies before is as it was. */
  lemma {:induction false} DeleteStopsAt(ms: seq<Msg>, id: Id, handle: Option<Id>, i: nat)
    requires i <= |ms| && !DeleteFrom(ms[i..], id, handle).1
    ensures DeleteFrom(ms, id, handle) == (ms[..i] + DeleteFrom(ms[i..], id, handle).0, false)
  {
    if i == 0 {
      assert ms[0..] == ms && ms[..0] + DeleteFrom(ms, id, handle).0 == DeleteFrom(ms, id, handle).0;
    } else {
      assert ms[1..][i - 1..] == ms[i..];
      DeleteStopsAt(ms[1..], id, handle, i - 1);
      assert ms[..i] == [ms[0]] + ms[1..][..i - 1];
      ConcatAssoc([ms[0]], ms[1..][..i - 1], DeleteFrom(ms[i..], id, handle).0);
    }
  }

  lemma MoversStep(ms: seq<Msg>, i: nat, until: Option<Instant>, now: Instant)
    requires i < |ms|
    ensures ms[i].Available(now) ==>
              && Movers(ms[i..], until, now) == Movers(ms[i + 1..], until, now) + [ms[i].(retainUntil := until)]
              && Remaining(ms[i..], now) == Remaining(ms[i + 1..], now)
    ensures !ms[i].Available(now) ==>
              && Movers(ms[i..], until, now) == Movers(ms[i + 1..], until, now)
              && Remaining(ms[i..], now) == [ms[i]] + Remaining(ms[i + 1..], now)
  {
    assert ms[i..][1..] == ms[i + 1..];
    if ms[i].Available(now) {
      var rest := Filter(ms[i + 1..], IsAvailable(now));
      assert Filter(ms[i..], IsAvailable(now)) == [ms[i]] + rest;
      assert ([ms[i]] + rest)[1..] == rest;
      assert Reverse([ms[i]] + rest) == Reverse(rest) + [ms[i]];
      assert Movers(ms[i..], until, now) == Map(Reverse(rest) + [ms[i]], Retained(until));
    } else {
      assert Filter(ms[i..], IsAvailable(now)) == Filter(ms[i + 1..], IsAvailable(now));
      assert Remaining(ms[i..], now)[0] == ms[i];
    }
  }

  /** A backward loop at index `i`, with `done` made of what lies behind it. */
  lemma BackwardStep(s0: seq<Msg>, i: nat, done: seq<Msg>, ms: seq<Msg>, m: Msg)
    requires i < |s0| && ms == s0[..i + 1] + done
    ensures |ms| > i && ms[i] == s0[i] && ms[..i] == s0[..i] && ms[i + 1..] == done
    ensures Splice(ms, i) == s0[..i] + done
    ensures ms[i := m] == s0[..i] + ([m] + done)
  {
  }

  lemma PollStep(o: QueueOptions, s0: seq<Msg>, i: nat, now: Instant)
    requires i < |s0|
    ensures var f := FateOf(o, s0[i], now);
            && Kept(o, s0[i..], now) == (if f.Stays? then [f.m] else []) + Kept(o, s0[i + 1..], now)
            && Reverse(Exhausted(o, s0[i..], now))
               == Reverse(Exhausted(o, s0[i + 1..], now)) + (if f.Leaves? then [f.m] else [])
  {
    assert s0[i..][0] == s0[i] && s0[i..][1..] == s0[i + 1..];
    var rest, f := Exhausted(o, s0[i + 1..], now), FateOf(o, s0[i], now);
    if f.Leaves? {
      assert ([f.m] + rest)[1..] == rest;
    }
  }

  /** The lists of source and target when the move loop has come down to index `i`; `same` when they
      are one list, which is then `ms`. */
  ghost predicate Moving(s0: seq<Msg>, t0: seq<Msg>, until: Option<Instant>, now: Instant, i: nat, same: bool,
                         ms: seq<Msg>, ts: seq<Msg>)
  {
    && i <= |s0|
    && var stay, go := Remaining(s0[i..], now), Movers(s0[i..], until, now);
       if same then ms == s0[..i] + (stay + go) else ms == s0[..i] + stay && ts == t0 + go
  }

  lemma MovingStep(s0: seq<Msg>, t0: seq<Msg>, until: Option<Instant>, now: Instant, i: nat, same: bool,
                   ms: seq<Msg>, ts: seq<Msg>)
    requires Moving(s0, t0, until, now, i + 1, same, ms, ts)
    ensures |ms| > i && ms[i] == s0[i]
    ensures !ms[i].Available(now) ==> Moving(s0, t0, until, now, i, same, ms, ts)
    ensures ms[i].Available(now) ==>
              var m := ms[i].(retainUntil := until);
              if same then Moving(s0, t0, until, now, i, same, Splice(ms, i) + [m], ts)
              else Moving(s0, t0, until, now, i, same, Splice(ms, i), ts + [m])
    ensures |Movers(s0[i..], until, now)| == |Movers(s0[i + 1..], until, now)| + if s0[i].Available(now) then 1 else 0
  {
    var stay, go := Remaining(s0[i + 1..], now), Movers(s0[i + 1..], until, now);
    MoversStep(s0, i, until, now);
    BackwardStep(s0, i, if same then stay + go else stay, ms, s0[i]);
    if s0[i].Available(now) {
      var m := s0[i].(retainUntil := until);
      ConcatAssoc(s0[..i], stay + go, [m]);
      ConcatAssoc(stay, go, [m]);
      ConcatAssoc(t0, go, [m]);
    } else {
      ConcatAssoc([s0[i]], stay, go);
      assert ms == ms[i := s0[i]];
    }
  }

  /** How a pass of the receive loop ends: with an answer, or asleep for a while. */
  datatype PassEnd = Answer | Sleep(ms: int)

  class MemoryQueue {
    const name: string
    const created: Instant
    var lastModified: Instant
    var options: QueueOptions
    var expiresMs: Option<int>
    var expiresAt: Option<Instant>
    var paused: bool
    var messages: seq<Msg>
    var triggers: seq<Trigger>

    ghost predicate Valid()
      reads this
    {
      NoRepeats(triggers)
    }

    function View(): Queue
      reads this
    {
      Queue(name, created, lastModified, options, expiresMs, expiresAt, paused, messages)
    }

    constructor (name: string, options: QueueOptions, now: Instant)
      ensures Valid() && View() == NewQueue(name, options, now) && triggers == []
    {
      this.name := name;
      this.created := now;
      this.lastModified := now;
      this.options := options;
      this.paused := false;
      this.messages := [];
      this.triggers := [];
      this.expiresMs := options.expiresMs;
      this.expiresAt := if options.expiresMs.Some? then Some(now + options.expiresMs.value) else None;
    }

    method Update(options: QueueOptions, now: Instant)
      modifies this`lastModified, this`options, this`expiresMs, this`expiresAt
      ensures View() == Reconfigure(old(View()), options, now)
    {
      this.options := options;
      if options.expiresMs.Some? {
        this.expiresMs := options.expiresMs;
        this.expiresAt := Some(now + options.expiresMs.value);
      }
      this.lastModified := now;
    }

    method SendMessage(id: Option<Id>, body: string, o: SendOptions, now: Instant, ids: IdSource)
      returns (r: Result<Id>)
      requires Valid()
      modifies this`messages, this`triggers, triggers, ids
      ensures Valid()
      ensures ids.next == if id.Some? then old(ids.next) else old(ids.next) + 1
      ensures var theId := if id.Some? then id.value else old(ids.next);
              match Send(old(View()), theId, body, o, now)
              case Err(e) => r == Err(e) && View() == old(View()) && triggers == old(triggers)
              case Ok(q) => r == Ok(theId) && View() == q && triggers == []
      ensures r.Ok? ==> forall t | t in old(triggers) :: t.View() == OnTrigger(old(t.View()), NewQueueMessage(name))
      ensures r.Err? ==> forall t | t in old(triggers) :: t.View() == old(t.View())
    {
      var theId: Id;
      if id.Some? {
        theId := id.value;
      } else {
        theId := ids.CreateId();
      }
      var refusal := Refusal(theId, body, o);
      if refusal.Some? {
        return Err(refusal.value);
      }
      var delay := if o.delayMs.Some? then o.delayMs else options.delayMs;
      var delayUntil := if delay.None? then None else Some(now + delay.value);
      var retainUntil := if options.messageRetentionPeriodMs.None? then None
                         else Some(now + options.messageRetentionPeriodMs.value);
      var message := NewMsg(theId, body,
                            if o.attributes.Some? then o.attributes.value else map[],
                            if o.priority.Some? then o.priority.value else 0,
                            now, delayUntil, retainUntil, o.lastNakReason, o.deduplicationId);
      messages := messages + [message];
      TriggerAll(NewQueueMessage(name));
      r := Ok(theId);
    }

    /** The checks `sendMessage` throws from, in its order. */
    method Refusal(id: Id, body: string, o: SendOptions) returns (e: Option<Error>)
      ensures e == SendError(View(), id, body, o)
    {
      if exists m | m in messages :: m.id == id {
        return Some(DuplicateId);
      }
      if o.deduplicationId.Some? && o.deduplicationId.value != "" {
        var dup := IsDuplicateMessage(o.deduplicationId.value);
        if dup {
          return Some(DuplicateMessage);
        }
      }
      if options.maxMessageSize.Some? && options.maxMessageSize.value != 0 && |body| > options.maxMessageSize.value {
        return Some(MessageTooLarge);
      }
      return None;
    }

    method IsDuplicateMessage(deduplicationId: string) returns (r: bool)
      ensures r == IsDuplicate(messages, deduplicationId)
    {
      for i := 0 to |messages|
        invariant forall j | 0 <= j < i ::
            messages[j].receiptHandle.Some? || messages[j].deduplicationId != Some(deduplicationId)
      {
        var message := messages[i];
        if message.receiptHandle.Some? {
          continue;
        }
        if message.deduplicationId.Some? && message.deduplicationId.value == deduplicationId {
          return true;
        }
      }
      return false;
    }

    method Pause()
      modifies this`paused
      ensures View() == old(View()).(paused := true)
    {
      paused := true;
    }

    method Resume()
      requires Valid()
      modifies this`paused, this`triggers, triggers
      ensures Valid() && View() == old(View()).(paused := false) && triggers == []
      ensures forall t | t in old(triggers) :: t.View() == OnTrigger(old(t.View()), Resumed(name))
    {
      paused := false;
      TriggerAll(Resumed(name));
    }

    /** Empties the list of waiting receivers and signals each of them. */
    method TriggerAll(e: Event)
      requires Valid()
      modifies this`triggers, triggers
      ensures triggers == []
      ensures forall t | t in old(triggers) :: t.View() == OnTrigger(old(t.View()), e)
    {
      var waiting := triggers;
      triggers := [];
      for i := 0 to |waiting|
        invariant forall j | i <= j < |waiting| :: waiting[j].View() == old(waiting[j].View())
        invariant forall j | 0 <= j < i :: waiting[j].View() == OnTrigger(old(waiting[j].View()), e)
        invariant triggers == []
      {
        OthersDiffer(waiting, i);
        waiting[i].Trigger(e);
      }
    }

    method SortMessages()
      modifies this`messages
      ensures View() == SortQueue(old(View()))
    {
      messages := Sort(messages);
    }

    /** One pass of the receive loop: from the top of the loop to the answer, or to the
        `await`. `soFar` is what earlier passes of the same call collected. */
    method ReceivePass(soFar: seq<Msg>, visibilityTimeoutMs: int, endTime: Instant, max: int,
                       now: Instant, ids: IdSource)
      returns (received: seq<Msg>, next: PassEnd)
      requires Valid()
      modifies this`expiresAt, this`messages, this`triggers, ids
      ensures Valid()
      ensures var r := Scan(old(View()), now, Some(visibilityTimeoutMs), max - |soFar|, old(ids.next));
              && View() == r.queue
              && received == soFar + r.delivered
              && ids.next == old(ids.next) + |r.delivered|
              && next == if 0 < |r.delivered| == max - |soFar| || now >= endTime then Answer else Sleep(endTime - now)
      ensures old(paused) ==> received == soFar && messages == old(messages) && ids.next == old(ids.next)
      ensures next.Answer? ==> triggers == old(triggers)
      ensures next.Sleep? ==> |triggers| == |old(triggers)| + 1 && triggers[..|old(triggers)|] == old(triggers)
      ensures next.Sleep? ==> fresh(triggers[|old(triggers)|]) && triggers[|old(triggers)|].View() == AskedTrigger
    {
      if expiresMs.Some? {
        expiresAt := Some(now + expiresMs.value);
      }
      received := soFar;
      if !paused {
        SortMessages();
        var got := ReceiveAvailable(|soFar|, visibilityTimeoutMs, max, now, ids);
        received := received + got;
        if 0 < |got| && |received| == max {
          return received, Answer;
        }
      } else {
        assert received == soFar + [];
      }
      if now > endTime {
        return received, Answer;
      }
      var timeLeft := endTime - now;
      if timeLeft > 0 {
        SleepOrWaitForEvent();
        return received, Sleep(timeLeft);
      } else {
        return received, Answer;
      }
    }

    /** The `for` loop of the receive loop, in list order, with `count` messages collected before. */
    method ReceiveAvailable(count: nat, visibilityTimeoutMs: int, max: int, now: Instant, ids: IdSource)
      returns (got: seq<Msg>)
      modifies this`messages, ids
      ensures ScanList(options, old(messages), now, now + visibilityTimeoutMs, max - count, old(ids.next))
           == Pass(messages, got)
      ensures ids.next == old(ids.next) + |got|
    {
      ghost var o, s0 := options, messages;
      ScanFromStart(o, s0, now, now + visibilityTimeoutMs, max - count, ids.next);
      ghost var whole := ScanList(o, s0, now, now + visibilityTimeoutMs, max - count, ids.next);
      got := [];
      for i := 0 to |messages|
        invariant |messages| == |s0| && (max > count ==> max > count + |got|) && ids.next == old(ids.next) + |got|
        invariant whole == ScanFrom(o, messages, i, now, now + visibilityTimeoutMs, max - count - |got|, ids.next, got)
      {
        var message := messages[i];
        if options.maxReceiveCount.Some? && message.receiveCount >= options.maxReceiveCount.value {
          continue;
        }
        if !message.Available(now) {
          continue;
        }
        var newExpiresAt := now + visibilityTimeoutMs;
        var handle := ids.CreateId();
        messages := messages[i := message.MarkReceived(newExpiresAt, now, handle)];
        got := got + [messages[i]];
        if count + |got| == max {
          return got;
        }
      }
    }

    /** Up to its `await`: a fresh trigger joins the list and is waited on. */
    method SleepOrWaitForEvent()
      requires Valid()
      modifies this`triggers
      ensures Valid()
      ensures |triggers| == |old(triggers)| + 1 && triggers[..|old(triggers)|] == old(triggers)
      ensures fresh(triggers[|old(triggers)|]) && triggers[|old(triggers)|].View() == AskedTrigger
    {
      var trigger := new Trigger();
      NoRepeatsAppend(triggers, trigger);
      triggers := triggers + [trigger];
      var _ := trigger.Wait();
    }

    method PeekMessages(includeNotVisible: bool, includeDelayed: bool, max: int, now: Instant)
      returns (peeked: seq<Msg>)
      modifies this`expiresAt, this`messages
      ensures View() == SortQueue(Touch(old(View()), now))
      ensures peeked == Peek(old(View()), includeNotVisible, includeDelayed, max, now)
    {
      if expiresMs.Some? {
        expiresAt := Some(now + expiresMs.value);
      }
      SortMessages();
      peeked := PeekAvailable(includeNotVisible, includeDelayed, max, now);
    }

    /** The `for` loop of `peekMessages`, in list order. */
    method PeekAvailable(includeNotVisible: bool, includeDelayed: bool, max: int, now: Instant)
      returns (peeked: seq<Msg>)
      ensures peeked == First(Filter(messages, Peekable(includeNotVisible, includeDelayed, now)), max)
    {
      peeked := [];
      ghost var p := Peekable(includeNotVisible, includeDelayed, now);
      for i := 0 to |messages|
        invariant peeked == Filter(messages[..i], p) && (max > 0 ==> |peeked| < max)
      {
        var message := messages[i];
        FilterSnoc(messages, i, p);
        if includeNotVisible == false {
          if message.NotVisible(now) {
            continue;
          }
        }
        if includeDelayed == false {
          if message.Delayed(now) {
            continue;
          }
        }
        peeked := peeked + [message];
        if |peeked| == max {
          assert messages == messages[..i + 1] + messages[i + 1..];
          FilterConcat(messages[..i + 1], messages[i + 1..], p);
          return;
        }
      }
      assert messages[..|messages|] == messages;
    }

    /** The message and its position, or nothing where the source throws. */
    method GetMessage(id: Id) returns (position: Option<nat>)
      modifies this`messages
      ensures View() == SortQueue(old(View()))
      ensures position == Find(messages, HasId(id))
    {
      SortMessages();
      for i := 0 to |messages|
        invariant forall j | 0 <= j < i :: messages[j].id != id
      {
        if messages[i].id == id {
          FindFirst(messages, HasId(id), i);
          return Some(i);
        }
      }
      return None;
    }

    method GetInfo(now: Instant) returns (visible: nat, delayed: nat, notVisible: nat)
      ensures visible == |Filter(messages, IsAvailable(now))|
      ensures delayed == |Filter(messages, IsDelayed(now))|
      ensures notVisible == |Filter(messages, IsNotVisible(now))|
      ensures visible + delayed + notVisible == |messages|
    {
      visible, delayed, notVisible := 0, 0, 0;
      for i := 0 to |messages|
        invariant visible == |Filter(messages[..i], IsAvailable(now))|
        invariant delayed == |Filter(messages[..i], IsDelayed(now))|
        invariant notVisible == |Filter(messages[..i], IsNotVisible(now))|
        invariant visible + delayed + notVisible == i
      {
        var message := messages[i];
        FilterCountSnoc(messages, i, IsAvailable(now));
        FilterCountSnoc(messages, i, IsDelayed(now));
        FilterCountSnoc(messages, i, IsNotVisible(now));
        if message.Available(now) {
          visible := visible + 1;
        } else if message.Delayed(now) {
          delayed := delayed + 1;
        } else if message.NotVisible(now) {
          notVisible := notVisible + 1;
        }
      }
      assert messages[..|messages|] == messages;
    }

    predicate IsExpired(now: Instant)
      reads this
      ensures IsExpired(now) == Expired(View(), now)
    {
      if expiresAt.Some? then now > expiresAt.value else false
    }

    /** Removes what is over retention or exhausted, ends the leases that ran out, and answers
        the exhausted messages, the last of the list first. */
    method Poll(now: Instant) returns (expired: seq<Msg>)
      modifies this`messages
      ensures View() == PollQueue(old(View()), now)
      ensures expired == Reverse(Exhausted(options, old(messages), now))
    {
      ghost var s0 := messages;
      expired := [];
      assert s0[|s0|..] == [];
      for i := |messages| downto 0
        invariant |messages| >= i && messages == s0[..i] + Kept(options, s0[i..], now)
        invariant expired == Reverse(Exhausted(options, s0[i..], now))
      {
        var message := messages[i];
        PollStep(options, s0, i, now);
        ghost var f := FateOf(options, s0[i], now);
        BackwardStep(s0, i, Kept(options, s0[i + 1..], now), messages, if f.Drops? then message else f.m);
        if message.retainUntil.Some? {
          if now > message.retainUntil.value {
            messages := Splice(messages, i);
            continue;
          }
        }
        if message.expiresAt.Some? && now > message.expiresAt.value {
          message := message.(expiresAt := None);
          if options.maxReceiveCount.Some? && options.maxReceiveCount.value != 0
             && message.receiveCount >= options.maxReceiveCount.value {
            expired := expired + [message];
            messages := Splice(messages, i);
            continue;
          } else {
            match options.Behavior()
            case Retry =>
            case MoveToEnd =>
              message := message.(orderTime := now);
            case DecreasePriority(amount) =>
              message := message.(priority := message.priority - amount);
          }
        }
        messages := messages[i := message];
      }
      assert s0[0..] == s0;
    }

    method UpdateMessageVisibilityByReceiptHandle(receiptHandle: Id, newExpiresAt: Instant) returns (e: Option<Error>)
      modifies this`messages
      ensures match UpdateVisibility(old(View()), receiptHandle, newExpiresAt)
              case Ok(q) => e == None && View() == q
              case Err(x) => e == Some(x) && View() == old(View())
    {
      var found := Find(messages, HasHandle(receiptHandle));
      if found.None? {
        return Some(InvalidReceiptHandle);
      }
      messages := messages[found.value := messages[found.value].(expiresAt := Some(newExpiresAt))];
      return None;
    }

    method DeleteMessageByReceiptHandle(receiptHandle: Id)
      modifies this`messages
      ensures View() == DeleteByHandle(old(View()), receiptHandle)
    {
      ghost var s0, keep := messages, Not(HasHandle(receiptHandle));
      assert s0[|s0|..] == [];
      for i := |messages| downto 0
        invariant |messages| >= i && messages == s0[..i] + Filter(s0[i..], keep)
      {
        ghost var kept := Filter(s0[i + 1..], keep);
        assert messages[i] == s0[i] && s0[i..][0] == s0[i] && s0[i..][1..] == s0[i + 1..];
        assert messages[..i] == s0[..i] && messages[i + 1..] == kept;
        if messages[i].receiptHandle == Some(receiptHandle) {
          messages := Splice(messages, i);
          continue;
        }
        assert messages == s0[..i] + ([s0[i]] + kept);
      }
      assert s0[0..] == s0;
    }

    method UpdateMessageById(id: Id, receiptHandle: Option<Id>, u: MessageUpdate, now: Instant)
      returns (e: Option<Error>)
      modifies this`messages
      ensures match UpdateMessage(old(View()), id, receiptHandle, u, now)
              case Ok(q) => e == None && View() == q
              case Err(x) => e == Some(x) && View() == old(View())
    {
      var found := Find(messages, HasId(id));
      if found.None? {
        return Some(MessageNotFound);
      }
      if receiptHandle.None? && u.visibilityTimeoutMs.Some? {
        return Some(InvalidUpdate);
      }
      if receiptHandle.Some? && messages[found.value].receiptHandle != receiptHandle {
        return Some(InvalidReceiptHandle);
      }
      messages := messages[found.value := messages[found.value].Update(now, u)];
      return None;
    }

    method Nak(id: Id, receiptHandle: Id, reason: Option<string>, now: Instant) returns (e: Option<Error>)
      modifies this`messages
      ensures match NakMessage(old(View()), id, receiptHandle, reason, now)
              case Ok(q) => e == None && View() == q
              case Err(x) => e == Some(x) && View() == old(View())
    {
      var found := Find(messages, HasId(id));
      if found.None? {
        return Some(MessageNotFound);
      }
      if messages[found.value].receiptHandle != Some(receiptHandle) {
        return Some(InvalidReceiptHandle);
      }
      messages := messages[found.value := messages[found.value].Nak(now, reason)];
      return None;
    }

    method Delete(id: Id, receiptHandle: Option<Id>) returns (e: Option<Error>)
      modifies this`messages
      ensures Deletion(View(), e) == DeleteMessage(old(View()), id, receiptHandle)
    {
      ghost var s0 := messages;
      var deleted := 0;
      assert s0[|s0|..] == [];
      for i := |messages| downto 0
        invariant |messages| >= i && messages == s0[..i] + DeleteFrom(s0[i..], id, receiptHandle).0
        invariant DeleteFrom(s0[i..], id, receiptHandle).1 && deleted == |s0| - |messages|
      {
        assert s0[i..][0] == s0[i] && s0[i..][1..] == s0[i + 1..];
        BackwardStep(s0, i, DeleteFrom(s0[i + 1..], id, receiptHandle).0, messages, messages[i]);
        if messages[i].id == id {
          if receiptHandle.Some? && messages[i].receiptHandle != receiptHandle {
            DeleteStopsAt(s0, id, receiptHandle, i);
            return Some(InvalidReceiptHandle);
          }
          messages := Splice(messages, i);
          deleted := deleted + 1;
          continue;
        }
      }
      assert s0[0..] == s0;
      if deleted == 0 {
        return Some(MessageNotFound);
      }
      return None;
    }

    method Purge()
      modifies this`messages
      ensures View() == old(View()).(messages := [])
    {
      messages := [];
    }

    /** Takes one message out and appends it to the target with the target's retention. */
    method MoveOne(i: nat, targetQueue: MemoryQueue, now: Instant)
      requires i < |messages|
      modifies this`messages, targetQueue`messages
      ensures var message := old(messages[i]).(retainUntil := targetQueue.options.RetainUntil(now));
              if targetQueue == this then messages == Splice(old(messages), i) + [message]
              else messages == Splice(old(messages), i) && targetQueue.messages == old(targetQueue.messages) + [message]
    {
      var message := messages[i];
      messages := Splice(messages, i);
      message := message.(retainUntil :=
        if targetQueue.options.messageRetentionPeriodMs.None? then None
        else Some(now + targetQueue.options.messageRetentionPeriodMs.value));
      targetQueue.messages := targetQueue.messages + [message];
    }

    /** Moves the available messages; source and target may be the same queue. */
    method MoveMessages(targetQueue: MemoryQueue, now: Instant) returns (movedMessageCount: nat)
      modifies this`messages, targetQueue`messages
      ensures movedMessageCount == |Filter(old(messages), IsAvailable(now))|
      ensures var movers := Movers(old(messages), old(targetQueue.options).RetainUntil(now), now);
              if targetQueue == this
              then View() == old(View()).(messages := Remaining(old(messages), now) + movers)
              else && View() == old(View()).(messages := Remaining(old(messages), now))
                   && targetQueue.View() == old(targetQueue.View()).(messages := old(targetQueue.messages) + movers)
    {
      ghost var s0, t0, same := messages, targetQueue.messages, targetQueue == this;
      ghost var until := targetQueue.options.RetainUntil(now);
      movedMessageCount := 0;
      assert s0[|s0|..] == [];
      for i := |messages| downto 0
        invariant Moving(s0, t0, until, now, i, same, messages, targetQueue.messages)
        invariant movedMessageCount == |Movers(s0[i..], until, now)|
      {
        MovingStep(s0, t0, until, now, i, same, messages, targetQueue.messages);
        var message := messages[i];
        if !message.Available(now) {
          continue;
        }
        MoveOne(i, targetQueue, now);
        movedMessageCount := movedMessageCount + 1;
      }
      assert s0[0..] == s0;
    }
  }
}
