/** What the sidebar and the composer learn from the course of a turn: where every event and
    every status snapshot takes a thread, and what sending a message does to it. */
module ActivityTurns {
  import opened Prelude
  import opened ThreadRun
  import opened ActivityStore
  import opened ThreadActivityStore

  /** The thread has a record, and its turn `turn` is live. */
  ghost predicate LiveTurn(s: Store, thread: Id, turn: Id) {
    && StoreOk(s) && thread in s.records
    && Live(s.records[thread].record.phase) && s.records[thread].record.turnId == Some(turn)
  }

  /** A persisted event of the thread that comes after all that its record has seen. */
  predicate LaterEvent(s: Store, event: Event) {
    && event.threadId in s.records && event.seq' != LOCAL_SEQ
    && var last := s.records[event.threadId].record.lastEventSeq; last.Some? ==> last.value < event.seq'
  }

  /** The thread was read at the time or later. */
  predicate ReadSince(s: Store, thread: Id, time: Time) {
    thread in s.readAt && time <= s.readAt[thread]
  }

  function RecordOf(s: Store, thread: Id): Record
    requires thread in s.records
  {
    s.records[thread].record
  }

  ghost predicate OthersStay(s: Store, t: Store, thread: Id) {
    t.readAt == s.readAt && t.records.Keys == s.records.Keys + {thread}
    && forall other | other in s.records && other != thread :: t.records[other] == s.records[other]
  }

  // ----------------------------------------------------------------- events

  /** The record of the thread is as the event says. */
  ghost predicate Follows(s: Store, t: Store, event: Event, turn: Id) {
    && OthersStay(s, t, event.threadId) && event.threadId in t.records
    && var r := RecordOf(t, event.threadId);
       && r.threadId == event.threadId && r.turnId == Some(turn) && r.lastEventSeq == Some(event.seq')
       && r.updatedAt == event.createdAt && !r.optimistic
  }

  lemma {:induction false} OwnEventIsTaken(s: Store, event: Event, turn: Id)
    requires LiveTurn(s, event.threadId, turn) && event.turnId == Some(turn) && LaterEvent(s, event)
    requires !event.payload.OtherPayload?
    ensures Follows(s, ApplyEvent(s, event), event, turn)
  {
    var next := EventRecord(s.Find(event.threadId), s.readAt, event);
    assert next.Some?;
    PutIs(s, next.value);
  }

  lemma {:induction false} PutIs(s: Store, next: Record)
    ensures var t := s.Put(next);
            next.threadId in t.records && t.records[next.threadId].record == next && OthersStay(s, t, next.threadId)
  {
  }

  /** An event of the live turn that is no end of it leaves the turn live: a start is
      processed, and a request waits for the user. */
  lemma {:induction false} LiveEventLeadsTo(s: Store, event: Event, turn: Id)
    requires LiveTurn(s, event.threadId, turn) && event.turnId == Some(turn) && LaterEvent(s, event)
    requires !event.payload.OtherPayload? && !event.payload.TurnFinished?
    requires !event.payload.ErrorRaised? && !event.payload.TurnCancelled?
    ensures var t := ApplyEvent(s, event);
            && Follows(s, t, event, turn)
            && var r := RecordOf(t, event.threadId);
               && !r.unread
               && (event.payload.TurnStarted? ==> r.phase == Processing)
               && (event.payload.ApprovalRequested? || event.payload.TurnSuspended? ==> r.phase == Approval)
               && (r.phase == UserAction <==> event.payload.BrowserHandoffRequired? || event.payload.UserInputRequested?
                                              || event.payload.TurnAwaitingInput?)
               && VisibleStatus(r) == Some(r.phase)
  {
    OwnEventIsTaken(s, event, turn);
    PutIs(s, EventRecord(s.Find(event.threadId), s.readAt, event).value);
  }

  /** An event that ends the live turn ends it in its own way, and calls for attention
      exactly when the thread has not been read since. */
  lemma {:induction false} EndEventLeadsTo(s: Store, event: Event, turn: Id)
    requires LiveTurn(s, event.threadId, turn) && event.turnId == Some(turn) && LaterEvent(s, event)
    requires event.payload.TurnFinished? || event.payload.ErrorRaised? || event.payload.TurnCancelled?
    ensures var t := ApplyEvent(s, event);
            && Follows(s, t, event, turn)
            && var r := RecordOf(t, event.threadId);
               && (event.payload.TurnFinished? ==> r.phase == Done)
               && (event.payload.ErrorRaised? ==> r.phase == Broken)
               && (event.payload.TurnCancelled? ==> r.phase == Stopped)
               && (r.unread <==> !ReadSince(s, event.threadId, event.createdAt))
               && VisibleStatus(r) == (if event.payload.TurnCancelled? || ReadSince(s, event.threadId, event.createdAt)
                                       then None else Some(r.phase))
  {
    OwnEventIsTaken(s, event, turn);
    PutIs(s, EventRecord(s.Find(event.threadId), s.readAt, event).value);
  }

  /** What the index shows is what the record calls for. */
  lemma {:induction false} IndexShows(t: Store, thread: Id)
    requires thread in t.records
    ensures var shown := VisibleOf(t.records);
            if VisibleStatus(RecordOf(t, thread)).Some?
            then thread in shown && Some(shown[thread]) == VisibleStatus(RecordOf(t, thread)) else thread !in shown
  {
  }

  /** The run of the thread after an event of its live turn: a start makes the turn active and
      ends the sending; an event after which nothing runs leaves no turn active and no
      cancellation; a request that a running turn makes leaves the run alone. */
  lemma {:induction false} EventRunIs(s: Store, event: Event, turn: Id)
    requires LiveTurn(s, event.threadId, turn) && event.turnId == Some(turn) && LaterEvent(s, event)
    requires !event.payload.OtherPayload?
    ensures var before, t := RecordOf(s, event.threadId).run, ApplyEvent(s, event);
            && event.threadId in t.records
            && var run := RecordOf(t, event.threadId).run;
               if event.payload.TurnStarted? then
                 run.activeTurnId == Some(turn) && !run.sending && run.cancelling == before.cancelling
                 && run.cancellationRequested == before.cancellationRequested
               else if event.payload.ApprovalRequested? || event.payload.UserInputRequested? then
                 run == before
               else
                 && run.activeTurnId.None? && !run.cancellationRequested && !run.cancelling
                 && run.sending == before.sending
  {
    OwnEventIsTaken(s, event, turn);
    PutIs(s, EventRecord(s.Find(event.threadId), s.readAt, event).value);
  }

  /** The event starts, suspends or ends a turn. */
  predicate MovesATurn(event: Event) {
    EndsATurn(event) || event.payload.TurnStarted? || event.payload.TurnSuspended? || event.payload.TurnAwaitingInput?
  }

  /** The event is about the turn of a message: that turn itself, if it is known; else the
      turn that says it was started by the message, or one that moves after it was sent. */
  predicate AnswersMessage(feedback: Feedback, event: Event) {
    MovesATurn(event) &&
    if feedback.turnId.Some? then event.turnId == feedback.turnId
    else if event.payload.TurnStarted? then event.payload.userMessageId == feedback.userMessageId
    else feedback.startedAt <= event.createdAt
  }

  /** A message waits for its turn exactly until an event comes that is about it. */
  lemma {:induction false} FeedbackWaits(s: Store, event: Event)
    requires StoreOk(s) && HasEventNews(s, event) && event.threadId in s.records
    requires RecordOf(s, event.threadId).run.pendingTurnFeedback.Some?
    ensures var feedback, t := RecordOf(s, event.threadId).run.pendingTurnFeedback.value, ApplyEvent(s, event);
            && event.threadId in t.records
            && RecordOf(t, event.threadId).run.pendingTurnFeedback
               == if AnswersMessage(feedback, event) then None else Some(feedback)
  {
    var next := EventRecord(s.Find(event.threadId), s.readAt, event);
    assert next.Some?;
    PutIs(s, next.value);
  }

  /** While a turn is live an event of another one is ignored, unless it starts a turn or is
      an error that names none. */
  lemma {:induction false} ForeignEventIsIgnored(s: Store, event: Event, turn: Id)
    requires LiveTurn(s, event.threadId, turn) && event.turnId != Some(turn)
    requires !event.payload.TurnStarted? && !(event.payload.ErrorRaised? && event.turnId.None?)
    ensures ApplyEvent(s, event) == s
  {
  }

  /** A new turn takes over, and an error without a turn ends the one that is live. */
  lemma {:induction false} TurnIsTakenOver(s: Store, event: Event, turn: Id)
    requires LiveTurn(s, event.threadId, turn) && LaterEvent(s, event)
    requires (event.payload.TurnStarted? && event.turnId.Some?) || (event.payload.ErrorRaised? && event.turnId.None?)
    ensures var t := ApplyEvent(s, event);
            if event.payload.TurnStarted? then
              && LiveTurn(t, event.threadId, event.turnId.value)
              && RecordOf(t, event.threadId).phase == Processing
              && RecordOf(t, event.threadId).run.activeTurnId == event.turnId
            else
              && event.threadId in t.records && RecordOf(t, event.threadId).turnId == Some(turn)
              && RecordOf(t, event.threadId).phase == Broken && RecordOf(t, event.threadId).run.activeTurnId.None?
  {
    ApplyEventKeepsOk(s, event);
    var next := EventRecord(s.Find(event.threadId), s.readAt, event);
    assert next.Some?;
    PutIs(s, next.value);
  }

  /** The event says where its thread is. */
  predicate NamesAPhase(event: Event) {
    !event.payload.OtherPayload? && (event.payload.TurnStarted? ==> event.turnId.Some?)
  }

  predicate EndsATurn(event: Event) {
    event.payload.TurnFinished? || event.payload.ErrorRaised? || event.payload.TurnCancelled?
  }

  /** The event may speak for a thread that is live: it is of the live turn, starts one, or is
      an error that names none; while no turn is known yet, it is one that names a turn and,
      after a send, does not end it, or again such an error. */
  predicate SpeaksFor(current: Record, event: Event) {
    if current.turnId.Some? then
      event.turnId == current.turnId || event.payload.TurnStarted?
      || (event.payload.ErrorRaised? && event.turnId.None?)
    else if event.turnId.None? then event.payload.ErrorRaised?
    else current.optimistic ==> !EndsATurn(event)
  }

  /** The event is newer than what the record has seen, and not older than a send. */
  predicate IsNew(current: Record, event: Event) {
    && (event.seq' != LOCAL_SEQ && current.lastEventSeq.Some? ==> current.lastEventSeq.value < event.seq')
    && (current.optimistic ==> current.updatedAt <= event.createdAt)
  }

  predicate HasEventNews(s: Store, event: Event) {
    NamesAPhase(event) &&
    (event.threadId in s.records ==>
       var current := s.records[event.threadId].record;
       IsNew(current, event) && (Live(current.phase) ==> SpeaksFor(current, event)))
  }

  ghost predicate EventPhaseIs(event: Event, phase: Phase) {
    && (phase == Processing <==> event.payload.TurnStarted?)
    && (phase == Approval <==> event.payload.ApprovalRequested? || event.payload.TurnSuspended?)
    && (phase == UserAction <==> event.payload.BrowserHandoffRequired? || event.payload.UserInputRequested?
                                 || event.payload.TurnAwaitingInput?)
    && (phase == Done <==> event.payload.TurnFinished?)
    && (phase == Broken <==> event.payload.ErrorRaised?)
    && (phase == Stopped <==> event.payload.TurnCancelled?)
  }

  ghost predicate TakenOver(s: Store, t: Store, event: Event) {
    && OthersStay(s, t, event.threadId) && event.threadId in t.records
    && var r := RecordOf(t, event.threadId);
       var known := event.threadId in s.records;
       && r.threadId == event.threadId && EventPhaseIs(event, r.phase) && r.updatedAt == event.createdAt
       && !r.optimistic
       && (r.unread <==> EndsATurn(event) && !ReadSince(s, event.threadId, event.createdAt))
       && r.turnId == (if event.turnId.Some? || !known then event.turnId else RecordOf(s, event.threadId).turnId)
       && r.lastEventSeq == (if event.seq' != LOCAL_SEQ then Some(event.seq')
                             else if known then RecordOf(s, event.threadId).lastEventSeq else None)
  }

  lemma {:induction false} EventIsTaken(s: Store, event: Event)
    requires StoreOk(s) && HasEventNews(s, event)
    ensures TakenOver(s, ApplyEvent(s, event), event)
  {
    var next := EventRecord(s.Find(event.threadId), s.readAt, event);
    assert next.Some?;
    PutIs(s, next.value);
  }

  lemma {:induction false} OldEventIsIgnored(s: Store, event: Event)
    requires StoreOk(s) && !HasEventNews(s, event)
    ensures ApplyEvent(s, event) == s
  {
  }

  /** For every store: an event that has news is taken over, and no other changes anything. */
  lemma {:induction false} EventIsTakenExactly(s: Store, event: Event)
    requires StoreOk(s)
    ensures if HasEventNews(s, event) then TakenOver(s, ApplyEvent(s, event), event) else ApplyEvent(s, event) == s
  {
    if HasEventNews(s, event) { EventIsTaken(s, event); } else { OldEventIsIgnored(s, event); }
  }

  // ----------------------------------------------------- status snapshots

  predicate LiveStatus(status: TurnStatus) {
    status.status !in {Succeeded, Failed, Cancelled, Interrupted}
  }

  /** The snapshot has news: it is about the turn of the record and is later than it or ends
      it; or it is about another turn that began after the last news of a live record, or
      that was heard of after the last news of an ended one. */
  predicate HasNews(current: Record, status: TurnStatus) {
    if current.optimistic then
      current.turnId == Some(status.turnId)
      || (LiveStatus(status) && current.updatedAt <= status.startedAt)
    else if current.turnId == Some(status.turnId) then
      status.updatedAt > current.updatedAt || (Live(current.phase) && !LiveStatus(status))
    else if Live(current.phase) then
      current.turnId.None? || (LiveStatus(status) && status.startedAt > current.updatedAt)
    else status.updatedAt > current.updatedAt
  }

  ghost predicate StatusPhaseIs(status: TurnStatus, phase: Phase) {
    && (phase == Processing <==> status.status in {Running, Cancelling})
    && (phase == Approval <==> status.status == WaitingApproval)
    && (phase == UserAction <==> status.status in {WaitingUserInput, WaitingUserAction})
    && (phase == Done <==> status.status == Succeeded)
    && (phase == Broken <==> status.status in {Failed, Interrupted})
    && (phase == Stopped <==> status.status == Cancelled)
  }

  /** The record of the thread is as the snapshot says. */
  ghost predicate Reports(s: Store, t: Store, status: TurnStatus) {
    && OthersStay(s, t, status.threadId) && status.threadId in t.records
    && var r := RecordOf(t, status.threadId);
       && r.threadId == status.threadId && r.turnId == Some(status.turnId) && StatusPhaseIs(status, r.phase)
       && r.updatedAt == status.updatedAt && !r.optimistic
       && (r.unread <==> !LiveStatus(status) && !ReadSince(s, status.threadId, status.updatedAt))
       && r.lastEventSeq == (if status.threadId in s.records then RecordOf(s, status.threadId).lastEventSeq else None)
       && r.run.activeTurnId == (if status.status in {Running, Cancelling} then Some(status.turnId) else None)
  }

  lemma {:induction false} StatusIsTaken(s: Store, status: TurnStatus)
    requires StoreOk(s) && (status.threadId in s.records ==> HasNews(RecordOf(s, status.threadId), status))
    ensures Reports(s, ReconcileTurnStatus(s, status), status)
  {
  }

  /** A snapshot that has news is taken over, and no other is. */
  lemma {:induction false} StatusIsTakenExactly(s: Store, status: TurnStatus)
    requires StoreOk(s)
    ensures if status.threadId in s.records && !HasNews(RecordOf(s, status.threadId), status)
            then ReconcileTurnStatus(s, status) == s
            else Reports(s, ReconcileTurnStatus(s, status), status)
  {
    if status.threadId !in s.records || HasNews(RecordOf(s, status.threadId), status) {
      StatusIsTaken(s, status);
    }
  }

  /** The run after a snapshot that is taken over: a cancellation stays asked for while the
      turn it was meant for, or the first one that is heard of, goes on; and a message that
      waited for this turn waits no more. */
  lemma {:induction false} StatusRunIs(s: Store, status: TurnStatus)
    requires StoreOk(s) && status.threadId in s.records && HasNews(RecordOf(s, status.threadId), status)
    ensures var before, t := RecordOf(s, status.threadId).run, ReconcileTurnStatus(s, status);
            && status.threadId in t.records
            && var run := RecordOf(t, status.threadId).run;
               && run.sending == before.sending && run.cancelling == run.cancellationRequested
               && (run.cancelling <==>
                   || status.status == Cancelling
                   || (before.cancellationRequested && status.status == Running
                       && (before.activeTurnId.None? || before.activeTurnId == Some(status.turnId))))
               && run.pendingTurnFeedback ==
                  (if before.pendingTurnFeedback.Some? && before.pendingTurnFeedback.value.turnId == Some(status.turnId)
                   then None else before.pendingTurnFeedback)
  {
    StatusIsTaken(s, status);
  }

  // ---------------------------------------------------------------- sending

  /** A send shows the thread as processing, unread no more; the live turn of a thread goes on. */
  lemma {:induction false} SendBegins(s: Store, thread: Id, now: Time)
    requires StoreOk(s)
    ensures var t := Step(s, OpBeginSend(thread, now));
            && OthersStay(s, t, thread) && thread in t.records
            && var r := RecordOf(t, thread);
               && Live(r.phase) && !r.unread && r.run.sending
               && if thread in s.records && Live(RecordOf(s, thread).phase)
                  then r.(run := r.run.(sending := false))
                       == RecordOf(s, thread).(run := RecordOf(s, thread).run.(sending := false))
                  else r.phase == Processing && r.optimistic && r.turnId.None? && r.updatedAt == now
  {
  }

  /** A send that fails at once leaves a thread as if nothing had been sent: a thread that was
      live goes on with its turn, and another has no record. */
  lemma {:induction false} SendThatFails(s: Store, thread: Id, now: Time)
    requires StoreOk(s)
    ensures var t := Step(Step(s, OpBeginSend(thread, now)), OpFailSend(thread));
            if thread in s.records && Live(RecordOf(s, thread).phase)
              && !(RecordOf(s, thread).optimistic && RecordOf(s, thread).run.activeTurnId.None?)
            then thread in t.records && RecordOf(t, thread) == RecordOf(s, thread).(
                   run := RunState(RecordOf(s, thread).run.activeTurnId, false, None, false, false))
            else thread !in t.records
  {
  }

  /** The answer to a send makes its turn the active one, if it names one, and the message
      waits for it; a thread that was live stays in its phase, and another is processed. */
  lemma {:induction false} SendIsConfirmed(s: Store, thread: Id, feedback: Feedback)
    requires StoreOk(s)
    ensures var t, known := Step(s, OpConfirmSend(thread, feedback)), thread in s.records;
            && OthersStay(s, t, thread) && thread in t.records
            && var r := RecordOf(t, thread);
               && Live(r.phase) && !r.unread && !r.run.sending && r.run.pendingTurnFeedback == Some(feedback)
               && r.phase == (if known && Live(RecordOf(s, thread).phase) then RecordOf(s, thread).phase
                              else Processing)
               && if feedback.turnId.Some? then
                    r.turnId == r.run.activeTurnId == feedback.turnId && !r.optimistic
                  else if known then
                    && r.turnId == RecordOf(s, thread).turnId && r.optimistic == RecordOf(s, thread).optimistic
                    && r.run.activeTurnId == RecordOf(s, thread).run.activeTurnId
                  else r.turnId.None? && r.optimistic && r.run.activeTurnId.None?
  {
  }

  /** Snapshots of different threads are taken over each by itself. */
  lemma {:induction false} SnapshotsAreTakenEach(s: Store, statuses: seq<TurnStatus>, i: nat)
    requires StoreOk(s) && i < |statuses|
    requires forall k | 0 <= k < |statuses| && k != i :: statuses[k].threadId != statuses[i].threadId
    ensures var t, thread := ReconcileTurnStatuses(s, statuses), statuses[i].threadId;
            t.Find(thread) == ReconcileTurnStatus(s, statuses[i]).Find(thread) && t.readAt == s.readAt
  {
    var init, last := statuses[..|statuses| - 1], statuses[|statuses| - 1];
    var mid := ReconcileTurnStatuses(s, init);
    if i == |statuses| - 1 {
      OtherSnapshotsStay(s, init, last.threadId);
      StatusByRecord(s, mid, last);
    } else {
      SnapshotsAreTakenEach(s, init, i);
      StatusesKeepOk(s, init);
      StatusIsTakenExactly(mid, last);
    }
  }

  lemma {:induction false} OtherSnapshotsStay(s: Store, statuses: seq<TurnStatus>, thread: Id)
    requires StoreOk(s) && forall status <- statuses :: status.threadId != thread
    ensures var t := ReconcileTurnStatuses(s, statuses); t.Find(thread) == s.Find(thread) && t.readAt == s.readAt
  {
    if statuses != [] {
      var init, last := statuses[..|statuses| - 1], statuses[|statuses| - 1];
      OtherSnapshotsStay(s, init, thread);
      StatusesKeepOk(s, init);
      StatusIsTakenExactly(ReconcileTurnStatuses(s, init), last);
    }
  }

  /** What a snapshot does to its thread depends on that thread alone. */
  lemma {:induction false} StatusByRecord(s: Store, t: Store, status: TurnStatus)
    requires s.Find(status.threadId) == t.Find(status.threadId) && s.readAt == t.readAt
    ensures ReconcileTurnStatus(t, status).Find(status.threadId) == ReconcileTurnStatus(s, status).Find(status.threadId)
    ensures ReconcileTurnStatus(t, status).readAt == s.readAt
  {
  }

  /** A thread that is read calls for no attention, and goes on so for events that happened
      before it was read. */
  lemma {:induction false} ReadingIsRemembered(s: Store, thread: Id, now: Time, event: Event)
    requires StoreOk(s) && event.threadId == thread && event.createdAt <= now
    ensures var t := Step(s, OpMarkRead(thread, now));
            && ReadSince(t, thread, event.createdAt)
            && (thread in t.records ==> !RecordOf(t, thread).unread)
            && var u := ApplyEvent(t, event); thread in u.records ==> !RecordOf(u, thread).unread
  {
  }

  /** A cancellation that is asked for is under way until it fails, until the status of the
      turn is known, or until nothing is left to be cancelled. */
  lemma {:induction false} CancellationIsUnderWay(s: Store, thread: Id, active: Option<Id>, resolved: bool)
    requires StoreOk(s) && thread in s.records
    ensures var asked := Step(s, OpRequestCancellation(thread));
            && asked.Run(thread) == s.Run(thread).(cancellationRequested := true, cancelling := true)
            && Step(asked, OpFailCancellation(thread)).Run(thread)
               == s.Run(thread).(cancellationRequested := false, cancelling := false)
            && var run := Step(asked, OpReconcileCancellation(thread, active, resolved)).Run(thread);
               && run.activeTurnId == active && run.cancelling == run.cancellationRequested
               && (run.cancelling <==>
                   !resolved && (active.Some? || s.Run(thread).sending || s.Run(thread).pendingTurnFeedback.Some?))
               && run.pendingTurnFeedback == (if resolved then None else s.Run(thread).pendingTurnFeedback)
  {
  }

  /** Of the records those of known threads stay as they are; a reset leaves none. */
  lemma {:induction false} OnlyKnownThreadsStay(s: Store, known: set<Id>)
    ensures var t := Step(s, OpRetainKnown(known));
            && t.readAt == s.readAt && t.records.Keys == s.records.Keys * known
            && forall thread | thread in t.records :: t.records[thread] == s.records[thread]
    ensures Step(s, OpReset).records == map[] && Step(s, OpReset).readAt == s.readAt
  {
  }
}
