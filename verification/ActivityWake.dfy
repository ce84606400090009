/** Replays among all operations of the store, not only among deliveries: an event that is
    stale stays so until the record of its thread is dropped. */
module ActivityWake {
  import opened Prelude
  import opened StableSort
  import opened ThreadRun
  import opened ActivityStore
  import opened ActivityReplay

  /** Records stand under their own threads. */
  ghost predicate Keyed(s: Store) {
    forall t | t in s.records :: s.records[t].record.threadId == t
  }

  /** The later record, if there is one, remembers at least the events of the earlier. */
  ghost predicate Remembers(earlier: Option<Record>, later: Option<Record>) {
    earlier.Some? && later.Some? && earlier.value.lastEventSeq.Some? ==>
      later.value.lastEventSeq.Some? && earlier.value.lastEventSeq.value <= later.value.lastEventSeq.value
  }

  lemma {:induction false} PutRemembers(s: Store, next: Record, t: Id)
    requires Keyed(s) && Remembers(s.Find(next.threadId), Some(next))
    ensures Remembers(s.Find(t), s.Put(next).Find(t)) && Keyed(s.Put(next))
  {
  }

  lemma {:induction false} EventRemembers(s: Store, event: Event, t: Id)
    requires Keyed(s)
    ensures Remembers(s.Find(t), ApplyEvent(s, event).Find(t)) && Keyed(ApplyEvent(s, event))
    ensures t in s.records ==> t in ApplyEvent(s, event).records
  {
    var next := EventRecord(s.Find(event.threadId), s.readAt, event);
    if next.Some? { PutRemembers(s, next.value, t); }
  }

  lemma {:induction false} DeliverRemembers(s: Store, events: seq<Event>, t: Id)
    requires Keyed(s)
    ensures Remembers(s.Find(t), Deliver(s, events).Find(t)) && Keyed(Deliver(s, events))
    ensures t in s.records ==> t in Deliver(s, events).records
  {
    if events != [] {
      DeliverRemembers(s, events[..|events| - 1], t);
      EventRemembers(Deliver(s, events[..|events| - 1]), events[|events| - 1], t);
    }
  }

  lemma {:induction false} StatusRemembers(s: Store, status: TurnStatus, t: Id)
    requires Keyed(s)
    ensures Remembers(s.Find(t), ReconcileTurnStatus(s, status).Find(t)) && Keyed(ReconcileTurnStatus(s, status))
    ensures t in s.records ==> t in ReconcileTurnStatus(s, status).records
  {
  }

  lemma {:induction false} StatusesRemember(s: Store, statuses: seq<TurnStatus>, t: Id)
    requires Keyed(s)
    ensures Remembers(s.Find(t), ReconcileTurnStatuses(s, statuses).Find(t))
            && Keyed(ReconcileTurnStatuses(s, statuses))
    ensures t in s.records ==> t in ReconcileTurnStatuses(s, statuses).records
    ensures t !in s.records && t !in ThreadsOf(statuses) ==> t !in ReconcileTurnStatuses(s, statuses).records
  {
    if statuses != [] {
      var init, last := statuses[..|statuses| - 1], statuses[|statuses| - 1];
      assert statuses == init + [last];
      StatusesRemember(s, init, t);
      StatusRemembers(ReconcileTurnStatuses(s, init), last, t);
    }
  }

  lemma {:induction false} LiveRemembers(s: Store, statuses: seq<TurnStatus>, baseline: Option<map<Id, Slot>>, t: Id)
    requires Keyed(s)
    ensures Remembers(s.Find(t), ReconcileLive(s, statuses, baseline).Find(t))
            && Keyed(ReconcileLive(s, statuses, baseline))
  {
    var gone := GoneThreads(s, ThreadsOf(statuses), baseline);
    StatusesRemember(s.(records := s.records - gone), statuses, t);
  }

  lemma {:induction false} BeginSendRemembers(s: Store, t: Id, thread: Id, now: Time)
    requires Keyed(s)
    ensures Remembers(s.Find(t), BeginSend(s, thread, now).Find(t)) && Keyed(BeginSend(s, thread, now))
  {
  }

  lemma {:induction false} ConfirmSendRemembers(s: Store, t: Id, thread: Id, feedback: Feedback)
    requires Keyed(s)
    ensures Remembers(s.Find(t), ConfirmSend(s, thread, feedback).Find(t)) && Keyed(ConfirmSend(s, thread, feedback))
  {
  }

  lemma {:induction false} FailSendRemembers(s: Store, t: Id, thread: Id)
    requires Keyed(s)
    ensures Remembers(s.Find(t), FailSend(s, thread).Find(t)) && Keyed(FailSend(s, thread))
  {
  }

  /** No operation makes a record forget an event, other than by dropping the record. */
  lemma {:induction false} StepRemembers(s: Store, op: Op, t: Id)
    requires Keyed(s)
    ensures Remembers(s.Find(t), Step(s, op).Find(t)) && Keyed(Step(s, op))
  {
    match op
    case OpBeginSend(thread, now) => BeginSendRemembers(s, t, thread, now);
    case OpConfirmSend(thread, feedback) => ConfirmSendRemembers(s, t, thread, feedback);
    case OpFailSend(thread) => FailSendRemembers(s, t, thread);
    case OpApplyEvent(event) => EventRemembers(s, event, t);
    case OpApplyEvents(events) => DeliverRemembers(s, Sort(events, (e: Event) => e.seq'), t);
    case OpReconcileTurnStatuses(statuses) => StatusesRemember(s, statuses, t);
    case OpReconcileLive(statuses, baseline) => LiveRemembers(s, statuses, baseline, t);
    case _ =>
  }

  lemma {:induction false} StaleIsInert(s: Store, e: Event)
    requires IsStale(s.Find(e.threadId), e)
    ensures Inert(s, e)
  {
  }

  lemma {:induction false} UnknownIsInertExactly(s: Store, e: Event)
    requires e.threadId !in s.records
    ensures Inert(s, e) <==> EventPhase(e).None?
  {
    var next := EventRecord(None, s.readAt, e);
    if next.Some? { assert e.threadId in s.Put(next.value).records; }
  }

  /** A stale event after any operation: it changes nothing if and only if its record is
      still there, or it is of a kind that the store never looks at. So dropping the record
      is what wakes it. */
  lemma {:induction false} InertAfterExactly(s: Store, op: Op, e: Event)
    requires Keyed(s) && IsStale(s.Find(e.threadId), e)
    ensures Inert(Step(s, op), e) <==> e.threadId in Step(s, op).records || EventPhase(e).None?
  {
    StepRemembers(s, op, e.threadId);
    if e.threadId in Step(s, op).records {
      StaleIsInert(Step(s, op), e);
    } else {
      UnknownIsInertExactly(Step(s, op), e);
    }
  }

  /** Over whole runs: as long as no operation drops the record, a stale event stays stale. */
  lemma {:induction false} StaysStale(s: Store, ops: seq<Op>, e: Event)
    requires Keyed(s) && IsStale(s.Find(e.threadId), e)
    requires forall k | 0 <= k <= |ops| :: e.threadId in Steps(s, ops[..k]).records
    ensures IsStale(Steps(s, ops).Find(e.threadId), e) && Inert(Steps(s, ops), e) && Keyed(Steps(s, ops))
  {
    assert ops[..|ops|] == ops;
    if ops != [] {
      var init := ops[..|ops| - 1];
      forall k | 0 <= k <= |init| ensures e.threadId in Steps(s, init[..k]).records {
        assert init[..k] == ops[..k];
      }
      StaysStale(s, init, e);
      StepRemembers(Steps(s, init), ops[|ops| - 1], e.threadId);
    }
    StaleIsInert(Steps(s, ops), e);
  }

  /** A reset wakes the start of a turn. */
  lemma {:induction false} ResetWakesAnEvent()
    ensures var started := Event(1, Some(7), 1, 10, TurnStarted(5));
            var s := ApplyEvent(Fresh, started);
            Inert(s, started) && !Inert(Step(s, OpReset), started)
  {
    var started := Event(1, Some(7), 1, 10, TurnStarted(5));
    var s := ApplyEvent(Fresh, started);
    TurnStarts(started);
    StaleIsInert(s, started);
    InertAfterExactly(s, OpReset, started);
  }
}
