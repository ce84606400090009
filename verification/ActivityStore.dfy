/** The activity store as a state machine on values. A slot pairs a record with the
    identity of its object, because the store compares record objects by identity. */
module ActivityStore {
  import opened Prelude
  import opened StableSort
  import opened ThreadRun

  datatype Slot = Slot(record: Record, identity: nat)

  datatype Store = Store(records: map<Id, Slot>, readAt: map<Id, Time>, nextIdentity: nat) {
    function Find(threadId: Id): Option<Record> {
      if threadId in records then Some(records[threadId].record) else None
    }

    /** `setRecord`: an equal record leaves the old object in place. */
    function Put(next: Record): Store {
      if Find(next.threadId) == Some(next) then this
      else this.(records := records[next.threadId := Slot(next, nextIdentity)], nextIdentity := nextIdentity + 1)
    }

    function Drop(threadId: Id): Store {
      this.(records := records - {threadId})
    }

    /** Puts a changed version of the record of a thread, if there is one. */
    function Update(threadId: Id, run: RunState): Store {
      if threadId in records then Put(records[threadId].record.(run := run)) else this
    }

    function Run(threadId: Id): RunState {
      if threadId in records then records[threadId].record.run else Idle
    }
  }

  const Fresh := Store(map[], map[], 0)

  // ---------------------------------------------------------- single steps

  function BeginSend(s: Store, threadId: Id, now: Time): Store {
    var current := s.Find(threadId);
    if current.Some? && Live(current.value.phase) then s.Put(current.value.(run := BeginThreadSend(current.value.run)))
    else s.Put(Record(threadId, None, Processing,
                      if current.Some? then current.value.lastEventSeq else None,
                      now, false, true, BeginThreadSend(s.Run(threadId))))
  }

  function ConfirmSend(s: Store, threadId: Id, feedback: Feedback): Store {
    match s.Find(threadId)
    case None =>
      s.Put(Record(threadId, feedback.turnId, Processing, None, feedback.startedAt, false,
                   feedback.turnId.None?, ConfirmThreadSend(Idle, feedback)))
    case Some(current) =>
      s.Put(current.(
        turnId := feedback.turnId.OrElse(current.turnId),
        phase := if Live(current.phase) then current.phase else Processing,
        unread := false,
        optimistic := if feedback.turnId.Some? then false else current.optimistic,
        run := ConfirmThreadSend(current.run, feedback)))
  }

  function FailSend(s: Store, threadId: Id): Store {
    match s.Find(threadId)
    case None => s
    case Some(current) =>
      var run := FailThreadSend(current.run);
      if current.optimistic && run.activeTurnId.None? then s.Drop(threadId) else s.Put(current.(run := run))
  }

  function MarkRead(s: Store, threadId: Id, now: Time): Store {
    var read := s.(readAt := s.readAt[threadId := now]);
    if threadId in s.records && s.records[threadId].record.unread
    then read.Put(s.records[threadId].record.(unread := false)) else read
  }

  predicate IsStale(current: Option<Record>, event: Event) {
    && current.Some? && current.value.lastEventSeq.Some? && PersistedSeq(event).Some?
    && PersistedSeq(event).value <= current.value.lastEventSeq.value
  }

  /** The event is about another turn than the one that is live. */
  predicate IsForeign(current: Record, event: Event, phase: Phase) {
    && Live(current.phase)
    && (|| (&& current.turnId.Some? && event.turnId != current.turnId && !event.payload.TurnStarted?
            && !(phase == Broken && event.turnId.None?))
        || (current.optimistic && !Live(phase) && event.turnId != current.turnId)
        || (current.turnId.None? && event.turnId.None? && phase != Broken))
  }

  /** The record an event leads to, or nothing if the store ignores the event. */
  function EventRecord(current: Option<Record>, readAt: map<Id, Time>, event: Event): Option<Record> {
    var phase := EventPhase(event);
    if phase.None? || IsStale(current, event) then None
    else if current.Some? && current.value.optimistic && event.createdAt < current.value.updatedAt then None
    else if current.Some? && IsForeign(current.value, event, phase.value) then None
    else
      Some(Record(
        event.threadId,
        event.turnId.OrElse(if current.Some? then current.value.turnId else None),
        phase.value,
        PersistedSeq(event).OrElse(if current.Some? then current.value.lastEventSeq else None),
        event.createdAt,
        !Live(phase.value) && Unread(readAt, event.threadId, event.createdAt),
        false,
        ReduceThreadRunEvent(if current.Some? then current.value.run else Idle, event)))
  }

  function ApplyEvent(s: Store, event: Event): Store {
    var next := EventRecord(s.Find(event.threadId), s.readAt, event);
    if next.None? then s else s.Put(next.value)
  }

  function Deliver(s: Store, events: seq<Event>): Store {
    if events == [] then s else ApplyEvent(Deliver(s, events[..|events| - 1]), events[|events| - 1])
  }

  function ApplyEvents(s: Store, events: seq<Event>): Store {
    Deliver(s, Sort(events, (e: Event) => e.seq'))
  }

  /** A status snapshot brings no news about the turn it names. */
  predicate IsOldNews(current: Record, status: TurnStatus, live: bool) {
    && !current.optimistic && current.turnId == Some(status.turnId)
    && (!Live(current.phase) || live) && !(status.updatedAt > current.updatedAt)
  }

  /** A status snapshot is about another turn and does not supersede the record. */
  predicate IsSuperseded(current: Record, status: TurnStatus, live: bool) {
    current.turnId != Some(status.turnId) &&
    if Live(current.phase) then
      || (current.turnId.Some? && (!live || !(status.startedAt > current.updatedAt)))
      || (current.optimistic && (!live || status.startedAt < current.updatedAt))
    else !(status.updatedAt > current.updatedAt)
  }

  function ReconcileTurnStatus(s: Store, status: TurnStatus): Store {
    var current := s.Find(status.threadId);
    var phase := StatusPhase(status);
    if current.Some? && (IsOldNews(current.value, status, Live(phase))
      || IsSuperseded(current.value, status, Live(phase)))
    then s
    else
      s.Put(Record(status.threadId, Some(status.turnId), phase,
                   if current.Some? then current.value.lastEventSeq else None,
                   status.updatedAt,
                   !Live(phase) && Unread(s.readAt, status.threadId, status.updatedAt),
                   false,
                   ReconcileThreadRunStatus(s.Run(status.threadId), status)))
  }

  function ReconcileTurnStatuses(s: Store, statuses: seq<TurnStatus>): Store {
    if statuses == [] then s
    else ReconcileTurnStatus(ReconcileTurnStatuses(s, statuses[..|statuses| - 1]), statuses[|statuses| - 1])
  }

  /** `captureLiveReconciliationBaseline`. */
  function Baseline(s: Store): map<Id, Slot> {
    map t | t in s.records && Live(s.records[t].record.phase) :: s.records[t]
  }

  function ThreadsOf(statuses: seq<TurnStatus>): set<Id> {
    set status <- statuses :: status.threadId
  }

  predicate IsGone(slot: Slot, threadId: Id, live: set<Id>, baseline: Option<map<Id, Slot>>) {
    && Live(slot.record.phase) && !slot.record.run.sending && threadId !in live
    && (baseline.None?
        || (threadId in baseline.value && baseline.value[threadId].identity == slot.identity))
  }

  function GoneThreads(s: Store, live: set<Id>, baseline: Option<map<Id, Slot>>): set<Id> {
    set t | t in s.records && IsGone(s.records[t], t, live, baseline)
  }

  function ReconcileLive(s: Store, statuses: seq<TurnStatus>, baseline: Option<map<Id, Slot>>): Store {
    var gone := GoneThreads(s, ThreadsOf(statuses), baseline);
    ReconcileTurnStatuses(s.(records := s.records - gone), statuses)
  }

  // ------------------------------------------------------------- all steps

  datatype Op =
    | OpBeginSend(threadId: Id, now: Time)
    | OpConfirmSend(threadId: Id, feedback: Feedback)
    | OpFailSend(threadId: Id)
    | OpRequestCancellation(threadId: Id)
    | OpReconcileCancellation(threadId: Id, activeTurnId: Option<Id>, statusResolved: bool)
    | OpFailCancellation(threadId: Id)
    | OpMarkRead(threadId: Id, now: Time)
    | OpApplyEvent(event: Event)
    | OpApplyEvents(events: seq<Event>)
    | OpReconcileTurnStatuses(statuses: seq<TurnStatus>)
    | OpReconcileLive(statuses: seq<TurnStatus>, baseline: Option<map<Id, Slot>>)
    | OpRetainKnown(threadIds: set<Id>)
    | OpReset

  function Step(s: Store, op: Op): Store {
    match op
    case OpBeginSend(t, now) => BeginSend(s, t, now)
    case OpConfirmSend(t, feedback) => ConfirmSend(s, t, feedback)
    case OpFailSend(t) => FailSend(s, t)
    case OpRequestCancellation(t) => s.Update(t, RequestThreadCancellation(s.Run(t)))
    case OpReconcileCancellation(t, active, resolved) =>
      s.Update(t, ReconcileThreadCancellation(s.Run(t), active, resolved))
    case OpFailCancellation(t) => s.Update(t, FailThreadCancellation(s.Run(t)))
    case OpMarkRead(t, now) => MarkRead(s, t, now)
    case OpApplyEvent(event) => ApplyEvent(s, event)
    case OpApplyEvents(events) => ApplyEvents(s, events)
    case OpReconcileTurnStatuses(statuses) => ReconcileTurnStatuses(s, statuses)
    case OpReconcileLive(statuses, baseline) => ReconcileLive(s, statuses, baseline)
    case OpRetainKnown(known) => s.(records := map t | t in s.records && t in known :: s.records[t])
    case OpReset => s.(records := map[])
  }

  function Steps(s: Store, ops: seq<Op>): Store {
    if ops == [] then s else Step(Steps(s, ops[..|ops| - 1]), ops[|ops| - 1])
  }

  // ------------------------------------------------------------- invariant

  predicate RecordOk(r: Record) {
    && (r.run.activeTurnId.Some? ==> Live(r.phase) && r.turnId == r.run.activeTurnId)
    && r.run.cancelling == r.run.cancellationRequested
    && (Live(r.phase) ==> !r.unread)
    && (r.optimistic ==> r.phase == Processing && r.turnId.None?)
  }

  ghost predicate StoreOk(s: Store) {
    forall t | t in s.records :: s.records[t].record.threadId == t && RecordOk(s.records[t].record)
  }

  /** Cancellations are reconciled with no turn or with the turn that is active. */
  predicate Allowed(s: Store, op: Op) {
    op.OpReconcileCancellation? && op.activeTurnId.Some? ==> op.activeTurnId == s.Run(op.threadId).activeTurnId
  }

  lemma {:induction false} PutKeepsOk(s: Store, next: Record)
    requires StoreOk(s) && RecordOk(next)
    ensures StoreOk(s.Put(next))
  {
  }

  lemma {:induction false} ApplyEventKeepsOk(s: Store, event: Event)
    requires StoreOk(s)
    ensures StoreOk(ApplyEvent(s, event))
  {
    var next := EventRecord(s.Find(event.threadId), s.readAt, event);
    if next.Some? { PutKeepsOk(s, next.value); }
  }

  lemma {:induction false} DeliverKeepsOk(s: Store, events: seq<Event>)
    requires StoreOk(s)
    ensures StoreOk(Deliver(s, events))
  {
    if events != [] {
      DeliverKeepsOk(s, events[..|events| - 1]);
      ApplyEventKeepsOk(Deliver(s, events[..|events| - 1]), events[|events| - 1]);
    }
  }

  lemma {:induction false} StatusesKeepOk(s: Store, statuses: seq<TurnStatus>)
    requires StoreOk(s)
    ensures StoreOk(ReconcileTurnStatuses(s, statuses))
  {
    if statuses != [] { StatusesKeepOk(s, statuses[..|statuses| - 1]); }
  }

  lemma {:induction false} SendKeepsOk(s: Store, t: Id, now: Time)
    requires StoreOk(s)
    ensures StoreOk(BeginSend(s, t, now))
  {
  }

  lemma {:induction false} ConfirmKeepsOk(s: Store, t: Id, feedback: Feedback)
    requires StoreOk(s)
    ensures StoreOk(ConfirmSend(s, t, feedback))
  {
  }

  lemma {:induction false} StepKeepsOk(s: Store, op: Op)
    requires StoreOk(s) && Allowed(s, op)
    ensures StoreOk(Step(s, op))
  {
    match op
    case OpBeginSend(t, now) => SendKeepsOk(s, t, now);
    case OpConfirmSend(t, feedback) => ConfirmKeepsOk(s, t, feedback);
    case OpApplyEvent(event) => ApplyEventKeepsOk(s, event);
    case OpApplyEvents(events) => DeliverKeepsOk(s, Sort(events, (e: Event) => e.seq'));
    case OpReconcileTurnStatuses(statuses) => StatusesKeepOk(s, statuses);
    case OpReconcileLive(statuses, baseline) =>
      StatusesKeepOk(s.(records := s.records - GoneThreads(s, ThreadsOf(statuses), baseline)), statuses);
    case _ =>
  }

  ghost predicate AllAllowed(s: Store, ops: seq<Op>) {
    forall k | 0 <= k < |ops| :: Allowed(Steps(s, ops[..k]), ops[k])
  }

  /** In every record of every run: an active turn is live and is the turn of the record, a
      cancellation that is requested is under way, a live record is not unread, and an
      optimistic record is processing without a turn. */
  lemma {:induction false} EveryReachableRecordIsOk(ops: seq<Op>)
    requires AllAllowed(Fresh, ops)
    ensures StoreOk(Steps(Fresh, ops))
  {
    if ops != [] {
      var init := ops[..|ops| - 1];
      assert AllAllowed(Fresh, init) by {
        forall k | 0 <= k < |init| ensures Allowed(Steps(Fresh, init[..k]), init[k]) {
          assert init[..k] == ops[..k] && init[k] == ops[k];
        }
      }
      EveryReachableRecordIsOk(init);
      assert Allowed(Steps(Fresh, ops[..|ops| - 1]), ops[|ops| - 1]);
      StepKeepsOk(Steps(Fresh, init), ops[|ops| - 1]);
    }
  }

  /** Reconciling a cancellation keeps the invariant exactly when the given turn is absent
      or is the turn of the live record. */
  lemma {:induction false} ReconcileCancellationKeepsOkExactly(s: Store, t: Id, active: Option<Id>, resolved: bool)
    requires StoreOk(s) && t in s.records
    ensures StoreOk(Step(s, OpReconcileCancellation(t, active, resolved))) <==>
            active.None? || (Live(s.records[t].record.phase) && s.records[t].record.turnId == active)
  {
    var run := ReconcileThreadCancellation(s.Run(t), active, resolved);
    var next := s.records[t].record.(run := run);
    var after := s.Put(next);
    assert after.records[t].record == next;
  }

  /** It does not keep it when a turn that has ended in the meantime is put back: the
      cancellation answer may arrive after the end of the turn, and the status request
      that would tell may fail. */
  lemma {:induction false} LateCancellationRevivesATurn()
    ensures var started := OpApplyEvent(Event(1, Some(7), 1, 10, TurnStarted(5)));
            var finished := OpApplyEvent(Event(1, Some(7), 2, 20, TurnFinished));
            var s := Steps(Fresh, [started, finished]);
            StoreOk(s) && !StoreOk(Step(s, OpReconcileCancellation(1, Some(7), false)))
  {
    var started := Event(1, Some(7), 1, 10, TurnStarted(5));
    var finished := Event(1, Some(7), 2, 20, TurnFinished);
    var s := ApplyEvent(ApplyEvent(Fresh, started), finished);
    TwoSteps(Fresh, OpApplyEvent(started), OpApplyEvent(finished));
    TurnStarts(started);
    TurnEnds(ApplyEvent(Fresh, started), finished);
    ApplyEventKeepsOk(Fresh, started);
    ApplyEventKeepsOk(ApplyEvent(Fresh, started), finished);
    ReconcileCancellationKeepsOkExactly(s, 1, Some(7), false);
  }

  lemma {:induction false} TwoSteps(s: Store, first: Op, second: Op)
    ensures Steps(s, [first, second]) == Step(Step(s, first), second)
  {
    assert [first, second][..1] == [first] && [first][..0] == [];
    assert Steps(s, []) == s && Steps(s, [first]) == Step(s, first);
  }

  lemma {:induction false} TurnStarts(started: Event)
    requires started == Event(1, Some(7), 1, 10, TurnStarted(5))
    ensures ApplyEvent(Fresh, started).records ==
            map[1 := Slot(Record(1, Some(7), Processing, Some(1), 10, false, false,
                                 RunState(Some(7), false, None, false, false)), 0)]
  {
  }

  lemma {:induction false} TurnEnds(s: Store, finished: Event)
    requires finished == Event(1, Some(7), 2, 20, TurnFinished)
    requires s.records == map[1 := Slot(Record(1, Some(7), Processing, Some(1), 10, false, false,
                                               RunState(Some(7), false, None, false, false)), 0)]
    ensures var after := ApplyEvent(s, finished); 1 in after.records && after.records[1].record.phase == Done
  {
  }
}
