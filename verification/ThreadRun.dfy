/** Command and lifecycle state of one thread, and the activity record around it. Ids and
    times are integers; `Feedback.object` is the identity of the feedback object, which is
    what the program compares. */
module ThreadRun {
  import opened Prelude

  type Id = nat
  type Time = int

  datatype Feedback = Feedback(object': nat, turnId: Option<Id>, userMessageId: Id, startedAt: Time)

  datatype RunState = RunState(
    activeTurnId: Option<Id>,
    sending: bool,
    pendingTurnFeedback: Option<Feedback>,
    cancellationRequested: bool,
    cancelling: bool)

  const Idle := RunState(None, false, None, false, false)

  datatype Payload =
    | TurnStarted(userMessageId: Id)
    | ApprovalRequested | TurnSuspended
    | BrowserHandoffRequired | UserInputRequested | TurnAwaitingInput
    | TurnFinished | ErrorRaised | TurnCancelled
    | OtherPayload

  /** `seq` is `LOCAL_SEQ` for an event that the server has not persisted. */
  datatype Event = Event(threadId: Id, turnId: Option<Id>, seq': int, createdAt: Time, payload: Payload)

  const LOCAL_SEQ := 9007199254740991

  datatype StatusKind =
    | Running | Cancelling | WaitingApproval | WaitingUserInput | WaitingUserAction
    | Succeeded | Failed | Cancelled | Interrupted

  datatype TurnStatus = TurnStatus(
    threadId: Id, turnId: Id, status: StatusKind, startedAt: Time, updatedAt: Time)

  // -------------------------------------------------------- run transitions

  function BeginThreadSend(run: RunState): RunState {
    run.(sending := true)
  }

  function ConfirmThreadSend(run: RunState, feedback: Feedback): RunState {
    run.(activeTurnId := feedback.turnId.OrElse(run.activeTurnId), sending := false,
         pendingTurnFeedback := Some(feedback))
  }

  function FailThreadSend(run: RunState): RunState {
    run.(sending := false, pendingTurnFeedback := None, cancellationRequested := false, cancelling := false)
  }

  function RequestThreadCancellation(run: RunState): RunState {
    run.(cancellationRequested := true, cancelling := true)
  }

  function FailThreadCancellation(run: RunState): RunState {
    run.(cancellationRequested := false, cancelling := false)
  }

  function ReconcileThreadCancellation(run: RunState, activeTurnId: Option<Id>, statusResolved: bool): RunState {
    var keepRequest :=
      !statusResolved && (activeTurnId.Some? || run.sending || run.pendingTurnFeedback.Some?);
    run.(activeTurnId := activeTurnId,
         pendingTurnFeedback := if statusResolved then None else run.pendingTurnFeedback,
         cancellationRequested := keepRequest, cancelling := keepRequest)
  }

  predicate IsInactiveTurnEvent(event: Event) {
    match event.payload
    case TurnFinished | TurnSuspended | TurnCancelled | TurnAwaitingInput
       | BrowserHandoffRequired | ErrorRaised => true
    case _ => false
  }

  predicate PendingFeedbackResolved(feedback: Option<Feedback>, event: Event) {
    && feedback.Some?
    && (match event.payload
        case TurnStarted(_) | TurnFinished | TurnSuspended | TurnCancelled | TurnAwaitingInput | ErrorRaised => true
        case _ => false)
    && (if feedback.value.turnId.Some? then event.turnId == feedback.value.turnId
        else if event.payload.TurnStarted? then event.payload.userMessageId == feedback.value.userMessageId
        else event.createdAt >= feedback.value.startedAt)
  }

  function ReduceThreadRunEvent(run: RunState, event: Event): RunState {
    var next :=
      if event.payload.TurnStarted? && event.turnId.Some? then
        run.(activeTurnId := event.turnId, sending := false)
      else if IsInactiveTurnEvent(event) then
        run.(activeTurnId := if event.turnId.None? || run.activeTurnId == event.turnId then None else run.activeTurnId,
             cancellationRequested := false, cancelling := false)
      else run;
    if PendingFeedbackResolved(next.pendingTurnFeedback, event) then next.(pendingTurnFeedback := None) else next
  }

  function ReconcileThreadRunStatus(run: RunState, turnStatus: TurnStatus): RunState {
    var activeTurnId :=
      if turnStatus.status == Running || turnStatus.status == Cancelling then Some(turnStatus.turnId) else None;
    var preserve :=
      && run.cancellationRequested && activeTurnId.Some?
      && (run.activeTurnId.None? || run.activeTurnId == activeTurnId);
    var feedback := run.pendingTurnFeedback;
    var resolved := feedback.Some? && feedback.value.turnId == Some(turnStatus.turnId);
    var cancelling := turnStatus.status == Cancelling || preserve;
    run.(activeTurnId := activeTurnId,
         pendingTurnFeedback := if resolved then None else feedback,
         cancellationRequested := cancelling, cancelling := cancelling)
  }

  // ------------------------------------------------------------- activity

  datatype Phase = Processing | Approval | UserAction | Done | Broken | Stopped

  predicate Live(phase: Phase) {
    phase == Processing || phase == Approval || phase == UserAction
  }

  /** The phase an event puts its thread into; absent if the event says nothing about it. */
  function EventPhase(event: Event): Option<Phase> {
    match event.payload
    case TurnStarted(_) => if event.turnId.Some? then Some(Processing) else None
    case ApprovalRequested | TurnSuspended => Some(Approval)
    case BrowserHandoffRequired | UserInputRequested | TurnAwaitingInput => Some(UserAction)
    case TurnFinished => Some(Done)
    case ErrorRaised => Some(Broken)
    case TurnCancelled => Some(Stopped)
    case OtherPayload => None
  }

  function StatusPhase(turnStatus: TurnStatus): Phase {
    match turnStatus.status
    case Running | Cancelling => Processing
    case WaitingApproval => Approval
    case WaitingUserInput | WaitingUserAction => UserAction
    case Succeeded => Done
    case Failed | Interrupted => Broken
    case Cancelled => Stopped
  }

  datatype Record = Record(
    threadId: Id,
    turnId: Option<Id>,
    phase: Phase,
    lastEventSeq: Option<int>,
    updatedAt: Time,
    unread: bool,
    optimistic: bool,
    run: RunState)

  /** What the sidebar shows for a record, if anything. */
  function VisibleStatus(record: Record): Option<Phase> {
    if record.phase == Stopped then None
    else if Live(record.phase) || record.unread then Some(record.phase)
    else None
  }

  function PersistedSeq(event: Event): Option<int> {
    if event.seq' == LOCAL_SEQ then None else Some(event.seq')
  }

  predicate Unread(readAt: map<Id, Time>, threadId: Id, updatedAt: Time) {
    threadId !in readAt || readAt[threadId] < updatedAt
  }
}
