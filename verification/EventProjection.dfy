/** The one-pass projection of a conversation's events, against scans that answer one
    question at a time. Which turn's changes are shown is defined by such a scan. */
module EventProjection {
  import opened Prelude
  import opened Strings
  import opened StableSort

  datatype ChangeSet = ChangeSet(id: nat, reverted: bool)

  /** The metadata of a tool result; a value of another type than the program looks for
      is `None`. */
  datatype Metadata = Metadata(
    failed: bool,
    changedPath: Option<string>,
    changedPaths: seq<Option<string>>,
    toolName: Option<string>,
    operation: Option<string>)

  datatype Payload =
    | TurnStarted(userMessageId: string)
    | AssistantMessage(messageId: string)
    | ChangesRecorded(changeSet: ChangeSet)
    | UndoCompleted(targetTurnId: string)
    | TurnFinished
    | TurnCancelled
    | ErrorRaised
    | ToolCallFinished(metadata: Option<Metadata>)
    | ModelContextBuilt(purpose: string)
    | ContextCompacted
    | ContextWarning(stage: string)
    | OtherPayload

  /** `id` stands for the event object: two events are the same object when it is equal. */
  datatype Event = Event(id: nat, seqNo: int, turnId: Option<string>, payload: Payload)

  /** The turn of an event, where an empty id counts as none. */
  function TurnOf(e: Event): Option<string> {
    if e.turnId.Some? && e.turnId.value != "" then e.turnId else None
  }

  // ------------------------------------------------------ kinds of events

  predicate IsTerminal(e: Event) {
    e.payload.TurnFinished? || e.payload.TurnCancelled? || e.payload.ErrorRaised?
  }

  predicate IsCancelledOrFailed(e: Event) {
    e.payload.TurnCancelled? || e.payload.ErrorRaised?
  }

  predicate IsError(e: Event) {
    e.payload.ErrorRaised?
  }

  predicate IsStarted(e: Event) {
    e.payload.TurnStarted?
  }

  predicate IsAnswer(e: Event) {
    e.payload.AssistantMessage?
  }

  predicate IsRecord(e: Event) {
    e.payload.ChangesRecorded?
  }

  predicate IsRevertedRecord(e: Event) {
    e.payload.ChangesRecorded? && e.payload.changeSet.reverted
  }

  predicate IsWorkspaceWrite(e: Event) {
    e.payload.ToolCallFinished? && e.payload.metadata.Some? &&
    var m := e.payload.metadata.value;
    !m.failed &&
    (m.changedPath.Some?
     || (exists i | 0 <= i < |m.changedPaths| :: m.changedPaths[i].Some?)
     || (m.toolName == Some("filesystem") && m.operation in {Some("write"), Some("copy"), Some("move"), Some("delete")})
     || m.toolName in {Some("apply_patch"), Some("create_skill"), Some("spreadsheet"), Some("write_file")})
  }

  predicate IsContextActivity(e: Event) {
    match e.payload
    case ModelContextBuilt(purpose) => purpose == "context_compaction"
    case ContextCompacted => true
    case ContextWarning(stage) => exists i | 0 <= i < |stage| :: OccursAt(stage, "compaction", i)
    case _ => false
  }

  // ---------------------------------------------- one question at a time

  /** Some event of the turn is of the kind. */
  predicate TurnHas(events: seq<Event>, turn: string, kind: Event -> bool) {
    exists i | 0 <= i < |events| :: events[i].turnId == Some(turn) && kind(events[i])
  }

  predicate ShouldShowRecordedTurnChanges(events: seq<Event>, turn: string) {
    if !TurnHas(events, turn, IsTerminal) then false
    else if TurnHas(events, turn, IsWorkspaceWrite) then true
    else !TurnHas(events, turn, IsCancelledOrFailed)
  }

  function TurnsWith(events: seq<Event>, kind: Event -> bool): set<string> {
    set e | e in events && TurnOf(e).Some? && kind(e) :: TurnOf(e).value
  }

  predicate Any(e: Event) {
    true
  }

  function TurnEvents(events: seq<Event>, turn: string): seq<Event> {
    if events == [] then []
    else
      var e := events[|events| - 1];
      TurnEvents(events[..|events| - 1], turn) + if e.turnId == Some(turn) then [e] else []
  }

  function LastRecorded(events: seq<Event>, turn: string): Option<ChangeSet> {
    if events == [] then None
    else
      var e := events[|events| - 1];
      if e.turnId == Some(turn) && e.payload.ChangesRecorded? then Some(e.payload.changeSet)
      else LastRecorded(events[..|events| - 1], turn)
  }

  function StartedBy(e: Event): Option<string> {
    if e.payload.TurnStarted? then Some(e.payload.userMessageId) else None
  }

  function AnsweredBy(e: Event): Option<string> {
    if e.payload.AssistantMessage? then Some(e.payload.messageId) else None
  }

  /** The turns that the message is tied to, each once, by its first tie. */
  function TurnsFor(events: seq<Event>, message: Event -> Option<string>, key: string): seq<string> {
    if events == [] then []
    else
      var before := TurnsFor(events[..|events| - 1], message, key);
      var e := events[|events| - 1];
      if TurnOf(e).Some? && message(e) == Some(key) && TurnOf(e).value !in before then before + [TurnOf(e).value]
      else before
  }

  function Messages(events: seq<Event>, message: Event -> Option<string>): set<string> {
    set e | e in events && TurnOf(e).Some? && message(e).Some? :: message(e).value
  }

  function ContextTurns(events: seq<Event>): seq<string> {
    if events == [] then []
    else
      var before := ContextTurns(events[..|events| - 1]);
      var e := events[|events| - 1];
      if TurnOf(e).Some? && IsContextActivity(e)
        && TurnOf(e).value !in before then before + [TurnOf(e).value] else before
  }

  function UndoTargets(events: seq<Event>): set<string> {
    set e | e in events && e.payload.UndoCompleted? :: e.payload.targetTurnId
  }

  function OrphanErrors(errors: seq<Event>, anchored: set<string>): seq<Event> {
    if errors == [] then []
    else
      var e := errors[|errors| - 1];
      OrphanErrors(errors[..|errors| - 1], anchored)
      + if TurnOf(e).None? || TurnOf(e).value !in anchored then [e] else []
  }

  function Unanchored(turns: seq<string>, anchored: set<string>): seq<string> {
    if turns == [] then []
    else Unanchored(turns[..|turns| - 1], anchored)
         + if turns[|turns| - 1] !in anchored then [turns[|turns| - 1]] else []
  }

  function FirstSeq(byTurn: map<string, seq<Event>>, turn: string): int {
    if turn in byTurn && byTurn[turn] != [] then byTurn[turn][0].seqNo else 0
  }

  function ByFirstSeq(byTurn: map<string, seq<Event>>): string -> int {
    turn => FirstSeq(byTurn, turn)
  }

  // ----------------------------------------------------- what is projected

  /** An array of a projection. Arrays are kept from one projection to the next under the
      same key only, so the number of the projection that made it identifies it. */
  datatype Arr<T> = Arr(run: nat, items: seq<T>)

  datatype Projection = Projection(
    eventsByTurn: map<string, Arr<Event>>,
    turnIdsByUserMessage: map<string, Arr<string>>,
    turnIdsByAssistantMessage: map<string, Arr<string>>,
    changeSetsByTurn: map<string, ChangeSet>,
    revertedTurnIds: set<string>,
    orphanContextActivityTurnIds: Arr<string>,
    orphanTurnErrors: Arr<Event>,
    turnsWithAssistantCards: set<string>,
    settledTurnIds: set<string>)

  function EventsByTurn(events: seq<Event>): map<string, seq<Event>> {
    map t | t in TurnsWith(events, Any) :: TurnEvents(events, t)
  }

  function TurnsByMessage(events: seq<Event>, message: Event -> Option<string>): map<string, seq<string>> {
    map key | key in Messages(events, message) :: TurnsFor(events, message, key)
  }

  function Recorded(events: seq<Event>): map<string, ChangeSet> {
    map t | t in TurnsWith(events, IsRecord) && LastRecorded(events, t).Some? :: LastRecorded(events, t).value
  }

  function ShownChanges(events: seq<Event>): map<string, ChangeSet> {
    map t | t in Recorded(events) && ShouldShowRecordedTurnChanges(events, t) :: Recorded(events)[t]
  }

  function ReuseArray<T(==)>(previous: Option<Arr<T>>, next: Arr<T>): Arr<T> {
    if previous.Some? && previous.value.items == next.items then previous.value else next
  }

  function At<T>(m: map<string, Arr<T>>, key: string): Option<Arr<T>> {
    if key in m then Some(m[key]) else None
  }

  /** The arrays of the projection with this number, with those of `previous` that did not
      change. */
  function Stable<T(==)>(previous: map<string, Arr<T>>, next: map<string, seq<T>>, run: nat): map<string, Arr<T>> {
    map key | key in next :: ReuseArray(At(previous, key), Arr(run, next[key]))
  }

  function PreviousEvents(previous: Option<Projection>): map<string, Arr<Event>> {
    if previous.Some? then previous.value.eventsByTurn else map[]
  }

  function PreviousByUser(previous: Option<Projection>): map<string, Arr<string>> {
    if previous.Some? then previous.value.turnIdsByUserMessage else map[]
  }

  function PreviousByAssistant(previous: Option<Projection>): map<string, Arr<string>> {
    if previous.Some? then previous.value.turnIdsByAssistantMessage else map[]
  }

  function OrphanContext(events: seq<Event>): seq<string> {
    Sort(Unanchored(ContextTurns(events), TurnsWith(events, IsStarted)), ByFirstSeq(EventsByTurn(events)))
  }

  /** What the projection is, one scan for each of its fields. */
  function Project(events: seq<Event>, previous: Option<Projection>, run: nat): Projection {
    Projection(
      Stable(PreviousEvents(previous), EventsByTurn(events), run),
      Stable(PreviousByUser(previous), TurnsByMessage(events, StartedBy), run),
      Stable(PreviousByAssistant(previous), TurnsByMessage(events, AnsweredBy), run),
      ShownChanges(events),
      TurnsWith(events, IsRevertedRecord) + UndoTargets(events),
      ReuseArray(
        if previous.Some? then Some(previous.value.orphanContextActivityTurnIds) else None,
        Arr(run, OrphanContext(events))),
      ReuseArray(
        if previous.Some? then Some(previous.value.orphanTurnErrors) else None,
        Arr(run, OrphanErrors(Filter(events, IsError), TurnsWith(events, IsStarted)))),
      TurnsWith(events, IsAnswer),
      TurnsWith(events, IsTerminal))
  }

  // ------------------------------------------------------------- one event

  lemma {:induction false} TurnsWithStep(events: seq<Event>, e: Event, kind: Event -> bool)
    ensures TurnsWith(events + [e], kind)
            == TurnsWith(events, kind) + if TurnOf(e).Some? && kind(e) then {TurnOf(e).value} else {}
  {
  }

  lemma {:induction false} MessagesStep(events: seq<Event>, e: Event, message: Event -> Option<string>)
    ensures Messages(events + [e], message)
            == Messages(events, message) + if TurnOf(e).Some? && message(e).Some? then {message(e).value} else {}
  {
  }

  lemma {:induction false} UndoTargetsStep(events: seq<Event>, e: Event)
    ensures UndoTargets(events + [e])
            == UndoTargets(events) + if e.payload.UndoCompleted? then {e.payload.targetTurnId} else {}
  {
  }

  lemma {:induction false} Snoc(events: seq<Event>, e: Event)
    ensures events + [e] != [] && (events + [e])[..|events + [e]| - 1] == events
            && (events + [e])[|events + [e]| - 1] == e
  {
  }

  lemma {:induction false} TurnEventsOfNone(events: seq<Event>, turn: string)
    requires turn != "" && turn !in TurnsWith(events, Any)
    ensures TurnEvents(events, turn) == []
  {
    if events != [] {
      var init, e := events[..|events| - 1], events[|events| - 1];
      assert events == init + [e];
      TurnsWithStep(init, e, Any);
      TurnEventsOfNone(init, turn);
    }
  }

  lemma {:induction false} EventsByTurnStep(events: seq<Event>, e: Event)
    ensures var was := EventsByTurn(events);
            EventsByTurn(events + [e]) ==
            if TurnOf(e).None? then was
            else was[TurnOf(e).value := (if TurnOf(e).value in was then was[TurnOf(e).value] else []) + [e]]
  {
    TurnsWithStep(events, e, Any);
    Snoc(events, e);
    if TurnOf(e).Some? && TurnOf(e).value !in TurnsWith(events, Any) {
      TurnEventsOfNone(events, TurnOf(e).value);
    }
    assert "" !in TurnsWith(events, Any);
    forall t | t in TurnsWith(events, Any) && TurnOf(e) != Some(t)
      ensures TurnEvents(events + [e], t) == TurnEvents(events, t)
    {
      assert e.turnId != Some(t);
    }
  }

  lemma {:induction false} TurnsForNone(events: seq<Event>, message: Event -> Option<string>, key: string)
    requires key !in Messages(events, message)
    ensures TurnsFor(events, message, key) == []
  {
    if events != [] {
      var init, e := events[..|events| - 1], events[|events| - 1];
      assert events == init + [e];
      MessagesStep(init, e, message);
      TurnsForNone(init, message, key);
    }
  }

  function AppendUnique(target: map<string, seq<string>>, key: string, value: string): map<string, seq<string>> {
    var values := if key in target then target[key] else [];
    target[key := if value in values then values else values + [value]]
  }

  lemma {:induction false} TurnsByMessageStep(events: seq<Event>, e: Event, message: Event -> Option<string>)
    ensures TurnsByMessage(events + [e], message) ==
            if TurnOf(e).Some? && message(e).Some?
            then AppendUnique(TurnsByMessage(events, message), message(e).value, TurnOf(e).value)
            else TurnsByMessage(events, message)
  {
    MessagesStep(events, e, message);
    Snoc(events, e);
    if TurnOf(e).Some? && message(e).Some? && message(e).value !in Messages(events, message) {
      TurnsForNone(events, message, message(e).value);
    }
    forall key | key in Messages(events, message) && !(TurnOf(e).Some? && message(e) == Some(key))
      ensures TurnsFor(events + [e], message, key) == TurnsFor(events, message, key)
    {
    }
  }

  lemma {:induction false} LastRecordedIs(events: seq<Event>, turn: string)
    requires turn != ""
    ensures LastRecorded(events, turn).Some? <==> turn in TurnsWith(events, IsRecord)
  {
    if events != [] {
      var init, e := events[..|events| - 1], events[|events| - 1];
      assert events == init + [e];
      TurnsWithStep(init, e, IsRecord);
      LastRecordedIs(init, turn);
    }
  }

  lemma {:induction false} RecordedStep(events: seq<Event>, e: Event)
    ensures Recorded(events + [e]) ==
            if TurnOf(e).Some? && e.payload.ChangesRecorded?
            then Recorded(events)[TurnOf(e).value := e.payload.changeSet] else Recorded(events)
  {
    TurnsWithStep(events, e, IsRecord);
    Snoc(events, e);
    forall t | t in TurnsWith(events + [e], IsRecord)
      ensures LastRecorded(events + [e], t).Some?
      ensures t != "" && (TurnOf(e) != Some(t) || !e.payload.ChangesRecorded? ==>
                LastRecorded(events + [e], t) == LastRecorded(events, t) && t in TurnsWith(events, IsRecord))
    {
      LastRecordedIs(events + [e], t);
    }
  }

  lemma {:induction false} ContextTurnsStep(events: seq<Event>, e: Event)
    ensures ContextTurns(events + [e]) ==
            if TurnOf(e).Some? && IsContextActivity(e) && TurnOf(e).value !in ContextTurns(events)
            then ContextTurns(events) + [TurnOf(e).value] else ContextTurns(events)
  {
    Snoc(events, e);
  }

  lemma {:induction false} ErrorsStep(events: seq<Event>, e: Event)
    ensures Filter(events + [e], IsError) == Filter(events, IsError) + if IsError(e) then [e] else []
  {
    Snoc(events, e);
  }

  // ------------------------------------------------------- after the pass

  function Flattened(m: map<string, seq<string>>): set<string> {
    set key, turn | key in m && turn in m[key] :: turn
  }

  lemma {:induction false} TurnsForMember(
      events: seq<Event>, message: Event -> Option<string>, key: string, turn: string)
    ensures turn in TurnsFor(events, message, key) <==>
            exists e <- events :: TurnOf(e) == Some(turn) && message(e) == Some(key)
  {
    if events != [] {
      var init, e := events[..|events| - 1], events[|events| - 1];
      assert events == init + [e];
      TurnsForMember(init, message, key, turn);
      assert forall x <- events :: x in init || x == e;
    }
  }

  /** The turns of all messages together are the turns with an event of that kind. */
  lemma {:induction false} FlattenedTurns(events: seq<Event>, message: Event -> Option<string>, kind: Event -> bool)
    requires forall e: Event :: kind(e) <==> message(e).Some?
    ensures Flattened(TurnsByMessage(events, message)) == TurnsWith(events, kind)
  {
    var m := TurnsByMessage(events, message);
    forall turn ensures turn in Flattened(m) <==> turn in TurnsWith(events, kind) {
      if turn in Flattened(m) {
        var key :| key in m && turn in m[key];
        TurnsForMember(events, message, key, turn);
      }
      if turn in TurnsWith(events, kind) {
        var e :| e in events && TurnOf(e) == Some(turn) && kind(e);
        TurnsForMember(events, message, message(e).value, turn);
        assert message(e).value in m;
      }
    }
  }

  /** A set filled event by event answers the scan's question. */
  lemma {:induction false} TurnsWithIsTurnHas(events: seq<Event>, turn: string, kind: Event -> bool)
    ensures turn in TurnsWith(events, kind) <==> turn != "" && TurnHas(events, turn, kind)
  {
    if turn in TurnsWith(events, kind) {
      var e :| e in events && TurnOf(e) == Some(turn) && kind(e);
      var i :| 0 <= i < |events| && events[i] == e;
      assert events[i].turnId == Some(turn) && kind(events[i]);
    }
    if turn != "" && TurnHas(events, turn, kind) {
      var i :| 0 <= i < |events| && events[i].turnId == Some(turn) && kind(events[i]);
      assert events[i] in events && TurnOf(events[i]) == Some(turn);
    }
  }

  lemma {:induction false} ShownByMembership(events: seq<Event>, turn: string)
    requires turn != ""
    ensures ShouldShowRecordedTurnChanges(events, turn) <==>
            turn in TurnsWith(events, IsTerminal) &&
            (turn in TurnsWith(events, IsWorkspaceWrite) || turn !in TurnsWith(events, IsCancelledOrFailed))
  {
    TurnsWithIsTurnHas(events, turn, IsTerminal);
    TurnsWithIsTurnHas(events, turn, IsWorkspaceWrite);
    TurnsWithIsTurnHas(events, turn, IsCancelledOrFailed);
  }

  method ShowChanges(recorded: map<string, ChangeSet>, terminal: set<string>, writes: set<string>, failed: set<string>)
      returns (shown: map<string, ChangeSet>)
    ensures shown == map t | t in recorded && t in terminal && (t in writes || t !in failed) :: recorded[t]
  {
    shown := map[];
    var left := recorded.Keys;
    while left != {}
      invariant left <= recorded.Keys
      invariant shown == map t | t in recorded && t !in left && t in terminal
                && (t in writes || t !in failed) :: recorded[t]
      decreases left
    {
      var turn :| turn in left;
      if turn in terminal && (turn in writes || turn !in failed) {
        shown := shown[turn := recorded[turn]];
      }
      left := left - {turn};
    }
  }

  method StabilizeArrayMap<T(==)>(previous: map<string, Arr<T>>, values: map<string, seq<T>>, run: nat)
      returns (next: map<string, Arr<T>>)
    ensures next == Stable(previous, values, run)
  {
    next := map key | key in values :: Arr(run, values[key]);
    var left := values.Keys;
    while left != {}
      invariant left <= values.Keys && next.Keys == values.Keys
      invariant forall key <- values ::
                  next[key] == if key in left then Arr(run, values[key]) else Stable(previous, values, run)[key]
      decreases left
    {
      var key :| key in left;
      if key in previous && previous[key].items == next[key].items {
        next := next[key := previous[key]];
      }
      left := left - {key};
    }
  }

  /** What the pass over the events collects. */
  datatype Scan = Scan(
    eventsByTurn: map<string, seq<Event>>,
    byUserMessage: map<string, seq<string>>,
    byAssistantMessage: map<string, seq<string>>,
    recorded: map<string, ChangeSet>,
    terminal: set<string>,
    writes: set<string>,
    failed: set<string>,
    reverted: set<string>,
    contextTurns: seq<string>,
    errors: seq<Event>)

  function Scanned(events: seq<Event>): Scan {
    Scan(
      EventsByTurn(events), TurnsByMessage(events, StartedBy), TurnsByMessage(events, AnsweredBy), Recorded(events),
      TurnsWith(events, IsTerminal), TurnsWith(events, IsWorkspaceWrite), TurnsWith(events, IsCancelledOrFailed),
      TurnsWith(events, IsRevertedRecord) + UndoTargets(events), ContextTurns(events), Filter(events, IsError))
  }

  /** One event, field by field. */
  function Scanning(scan: Scan, e: Event): Scan {
    var t := TurnOf(e);
    Scan(
      if t.Some? then scan.eventsByTurn[t.value := (if t.value in scan.eventsByTurn
        then scan.eventsByTurn[t.value] else []) + [e]]
      else scan.eventsByTurn,
      if t.Some? && e.payload.TurnStarted? then AppendUnique(scan.byUserMessage, e.payload.userMessageId, t.value)
      else scan.byUserMessage,
      if t.Some? && e.payload.AssistantMessage? then AppendUnique(scan.byAssistantMessage, e.payload.messageId, t.value)
      else scan.byAssistantMessage,
      if t.Some? && e.payload.ChangesRecorded? then scan.recorded[t.value := e.payload.changeSet] else scan.recorded,
      if t.Some? && IsTerminal(e) then scan.terminal + {t.value} else scan.terminal,
      if t.Some? && IsWorkspaceWrite(e) then scan.writes + {t.value} else scan.writes,
      if t.Some? && IsCancelledOrFailed(e) then scan.failed + {t.value} else scan.failed,
      if t.Some? && IsRevertedRecord(e) then scan.reverted + {t.value}
      else if e.payload.UndoCompleted? then scan.reverted + {e.payload.targetTurnId}
      else scan.reverted,
      if t.Some? && IsContextActivity(e) && t.value !in scan.contextTurns then scan.contextTurns + [t.value]
      else scan.contextTurns,
      if IsError(e) then scan.errors + [e] else scan.errors)
  }

  lemma {:induction false} RevertedStep(seen: seq<Event>, e: Event)
    ensures TurnsWith(seen + [e], IsRevertedRecord) + UndoTargets(seen + [e]) ==
            var was := TurnsWith(seen, IsRevertedRecord) + UndoTargets(seen);
            if TurnOf(e).Some? && IsRevertedRecord(e) then was + {TurnOf(e).value}
            else if e.payload.UndoCompleted? then was + {e.payload.targetTurnId}
            else was
  {
    TurnsWithStep(seen, e, IsRevertedRecord);
    UndoTargetsStep(seen, e);
  }

  lemma {:induction false} MapsAreScanned(seen: seq<Event>, e: Event, now: Scan, next: Scan)
    requires now == Scanning(Scanned(seen), e) && next == Scanned(seen + [e])
    ensures now.eventsByTurn == next.eventsByTurn && now.recorded == next.recorded
    ensures now.byUserMessage == next.byUserMessage && now.byAssistantMessage == next.byAssistantMessage
  {
    EventsByTurnStep(seen, e);
    TurnsByMessageStep(seen, e, StartedBy);
    TurnsByMessageStep(seen, e, AnsweredBy);
    RecordedStep(seen, e);
  }

  lemma {:induction false} SetsAreScanned(seen: seq<Event>, e: Event, now: Scan, next: Scan)
    requires now == Scanning(Scanned(seen), e) && next == Scanned(seen + [e])
    ensures now.terminal == next.terminal && now.writes == next.writes && now.failed == next.failed
    ensures now.reverted == next.reverted
  {
    TurnsWithStep(seen, e, IsTerminal);
    TurnsWithStep(seen, e, IsWorkspaceWrite);
    TurnsWithStep(seen, e, IsCancelledOrFailed);
    RevertedStep(seen, e);
  }

  lemma {:induction false} ListsAreScanned(seen: seq<Event>, e: Event, now: Scan, next: Scan)
    requires now == Scanning(Scanned(seen), e) && next == Scanned(seen + [e])
    ensures now.contextTurns == next.contextTurns && now.errors == next.errors
  {
    ContextTurnsStep(seen, e);
    ErrorsStep(seen, e);
  }

  /** The pass keeps what it has collected equal to what the scans would find. */
  lemma {:induction false} ScanningIsScanned(seen: seq<Event>, e: Event, now: Scan, next: Scan)
    requires now == Scanning(Scanned(seen), e) && next == Scanned(seen + [e])
    ensures now == next
  {
    MapsAreScanned(seen, e, now, next);
    SetsAreScanned(seen, e, now, next);
    ListsAreScanned(seen, e, now, next);
  }

  method ScanEvent(scan: Scan, event: Event) returns (next: Scan)
    ensures next == Scanning(scan, event)
  {
    next := scan;
    var turn := TurnOf(event);
    if turn.Some? {
      var turnEvents := if turn.value in scan.eventsByTurn then scan.eventsByTurn[turn.value] else [];
      next := next.(eventsByTurn := scan.eventsByTurn[turn.value := turnEvents + [event]]);
    }
    if turn.Some? && event.payload.TurnStarted? {
      next := next.(byUserMessage := AppendUnique(scan.byUserMessage, event.payload.userMessageId, turn.value));
    }
    if turn.Some? && event.payload.AssistantMessage? {
      next := next.(byAssistantMessage := AppendUnique(scan.byAssistantMessage, event.payload.messageId, turn.value));
    }
    if turn.Some? && event.payload.ChangesRecorded? {
      next := next.(recorded := scan.recorded[turn.value := event.payload.changeSet]);
      if event.payload.changeSet.reverted { next := next.(reverted := next.reverted + {turn.value}); }
    }
    if event.payload.UndoCompleted? { next := next.(reverted := next.reverted + {event.payload.targetTurnId}); }
    if turn.Some? && IsTerminal(event) { next := next.(terminal := scan.terminal + {turn.value}); }
    if turn.Some? && IsCancelledOrFailed(event) { next := next.(failed := scan.failed + {turn.value}); }
    if turn.Some? && IsWorkspaceWrite(event) { next := next.(writes := scan.writes + {turn.value}); }
    if turn.Some? && IsContextActivity(event) && turn.value !in scan.contextTurns {
      next := next.(contextTurns := scan.contextTurns + [turn.value]);
    }
    if IsError(event) { next := next.(errors := scan.errors + [event]); }
  }

  method ScanEvents(events: seq<Event>) returns (scan: Scan)
    ensures scan == Scanned(events)
  {
    scan := Scan(map[], map[], map[], map[], {}, {}, {}, {}, [], []);
    for i := 0 to |events|
      invariant scan == Scanned(events[..i])
    {
      assert events[..i + 1] == events[..i] + [events[i]];
      ScanningIsScanned(events[..i], events[i], Scanning(scan, events[i]), Scanned(events[..i] + [events[i]]));
      scan := ScanEvent(scan, events[i]);
    }
    assert events[..|events|] == events;
  }

  method ProjectConversationEvents(events: seq<Event>, previous: Option<Projection>, run: nat) returns (p: Projection)
    ensures p == Project(events, previous, run)
  {
    var scan := ScanEvents(events);
    var changeSets := ShowChanges(scan.recorded, scan.terminal, scan.writes, scan.failed);
    ShownIsShown(events, changeSets);
    FlattenedTurns(events, StartedBy, IsStarted);
    FlattenedTurns(events, AnsweredBy, IsAnswer);
    var anchored := Flattened(scan.byUserMessage);
    var orphanErrors := ReuseArray(
      if previous.Some? then Some(previous.value.orphanTurnErrors) else None,
      Arr(run, OrphanErrors(scan.errors, anchored)));
    var orphanContext := ReuseArray(
      if previous.Some? then Some(previous.value.orphanContextActivityTurnIds) else None,
      Arr(run, Sort(Unanchored(scan.contextTurns, anchored), ByFirstSeq(scan.eventsByTurn))));
    var byTurn := StabilizeArrayMap(PreviousEvents(previous), scan.eventsByTurn, run);
    var byUser := StabilizeArrayMap(PreviousByUser(previous), scan.byUserMessage, run);
    var byAssistant := StabilizeArrayMap(PreviousByAssistant(previous), scan.byAssistantMessage, run);
    p := Projection(
      byTurn, byUser, byAssistant, changeSets, scan.reverted,
      orphanContext, orphanErrors, Flattened(scan.byAssistantMessage), scan.terminal);
  }

  lemma {:induction false} ShownIsShown(events: seq<Event>, shown: map<string, ChangeSet>)
    requires shown == map t | t in Recorded(events) && t in TurnsWith(events, IsTerminal)
                          && (t in TurnsWith(events, IsWorkspaceWrite) || t !in TurnsWith(events, IsCancelledOrFailed))
                        :: Recorded(events)[t]
    ensures shown == ShownChanges(events)
  {
    forall t | t in Recorded(events)
      ensures ShouldShowRecordedTurnChanges(events, t) <==>
              t in TurnsWith(events, IsTerminal) &&
              (t in TurnsWith(events, IsWorkspaceWrite) || t !in TurnsWith(events, IsCancelledOrFailed))
    {
      ShownByMembership(events, t);
    }
  }

  // ------------------------------------------------------------- what it means

  /** A turn's changes are shown exactly when it has some on record and the scan of its
      events says so, and what is shown is what was recorded last. */
  lemma {:induction false} ShownExactly(events: seq<Event>, previous: Option<Projection>, run: nat, turn: string)
    ensures turn in Project(events, previous, run).changeSetsByTurn <==>
            turn != "" && LastRecorded(events, turn).Some? && ShouldShowRecordedTurnChanges(events, turn)
    ensures turn in Project(events, previous, run).changeSetsByTurn ==>
            Some(Project(events, previous, run).changeSetsByTurn[turn]) == LastRecorded(events, turn)
  {
    if turn != "" { LastRecordedIs(events, turn); }
    TurnsWithIsTurnHas(events, turn, IsRecord);
  }

  /** The exception at an input: an event whose turn id is empty. The scan for that turn
      finds everything it asks for, and the projection shows nothing. */
  lemma {:induction false} EmptyTurnIsNotShown(changes: ChangeSet, previous: Option<Projection>, run: nat)
    ensures var events := [Event(0, 0, Some(""), ChangesRecorded(changes)), Event(1, 1, Some(""), TurnFinished)];
            && LastRecorded(events, "").Some? && ShouldShowRecordedTurnChanges(events, "")
            && "" !in Project(events, previous, run).changeSetsByTurn
  {
    var events := [Event(0, 0, Some(""), ChangesRecorded(changes)), Event(1, 1, Some(""), TurnFinished)];
    ShownExactly(events, previous, run, "");
    LastRecordedIsLast(events, "", 0);
    assert IsTerminal(events[1]) && events[1].turnId == Some("");
    assert TurnHas(events, "", IsTerminal);
  }

  /** `LastRecorded` is the last record of the turn. */
  lemma {:induction false} LastRecordedIsLast(events: seq<Event>, turn: string, i: nat)
    requires i < |events| && events[i].turnId == Some(turn) && events[i].payload.ChangesRecorded?
    requires forall j | i < j < |events| :: !(events[j].turnId == Some(turn) && events[j].payload.ChangesRecorded?)
    ensures LastRecorded(events, turn) == Some(events[i].payload.changeSet)
  {
    if i < |events| - 1 { LastRecordedIsLast(events[..|events| - 1], turn, i); }
  }

  /** The events of a turn: those of the log with that turn, in the order of the log. */
  lemma {:induction false} TurnEventsAre(events: seq<Event>, turn: string)
    ensures Subsequence(TurnEvents(events, turn), events)
    ensures forall e :: e in TurnEvents(events, turn) <==> e in events && e.turnId == Some(turn)
  {
    if events != [] {
      var init, e := events[..|events| - 1], events[|events| - 1];
      assert events == init + [e];
      TurnEventsAre(init, turn);
      SubsequenceSnoc(TurnEvents(init, turn), init, e);
      assert TurnEvents(init, turn) + [] == TurnEvents(init, turn);
    }
  }

  lemma {:induction false} EventsByTurnAre(events: seq<Event>, previous: Option<Projection>, run: nat, turn: string)
    ensures var byTurn := Project(events, previous, run).eventsByTurn;
            && (turn in byTurn <==> turn != "" && TurnEvents(events, turn) != [])
            && (turn in byTurn ==> byTurn[turn].items == TurnEvents(events, turn))
  {
    TurnEventsAre(events, turn);
    if turn in TurnsWith(events, Any) {
      var e :| e in events && TurnOf(e) == Some(turn);
      assert e in TurnEvents(events, turn);
    } else if turn != "" {
      TurnEventsOfNone(events, turn);
    }
  }

  /** The turns of a message: each once, in the order in which they were first tied to it. */
  lemma {:induction false} TurnsForAre(events: seq<Event>, message: Event -> Option<string>, key: string)
    ensures Distinct(TurnsFor(events, message, key))
    ensures forall n: nat | n <= |events| :: TurnsFor(events[..n], message, key) <= TurnsFor(events, message, key)
  {
    if events != [] {
      var init := events[..|events| - 1];
      TurnsForAre(init, message, key);
      forall n: nat | n <= |events|
        ensures TurnsFor(events[..n], message, key) <= TurnsFor(events, message, key)
      {
        if n < |events| { assert init[..n] == events[..n]; } else { assert events[..n] == events; }
      }
    }
  }

  lemma {:induction false} UnanchoredAre(turns: seq<string>, anchored: set<string>)
    ensures forall t :: t in Unanchored(turns, anchored) <==> t in turns && t !in anchored
    ensures Subsequence(Unanchored(turns, anchored), turns)
  {
    if turns != [] {
      var init, last := turns[..|turns| - 1], turns[|turns| - 1];
      assert turns == init + [last];
      UnanchoredAre(init, anchored);
      SubsequenceSnoc(Unanchored(init, anchored), init, last);
      assert Unanchored(init, anchored) + [] == Unanchored(init, anchored);
    }
  }

  lemma {:induction false} ContextTurnsAre(events: seq<Event>)
    ensures Distinct(ContextTurns(events))
    ensures forall t :: t in ContextTurns(events) <==> t in TurnsWith(events, IsContextActivity)
  {
    if events != [] {
      var init, e := events[..|events| - 1], events[|events| - 1];
      assert events == init + [e];
      ContextTurnsAre(init);
      TurnsWithStep(init, e, IsContextActivity);
    }
  }

  /** The orphan activities: the turns with context activity that no user message started,
      each once, by the sequence number of their first event. */
  lemma {:induction false} OrphanContextIs(events: seq<Event>)
    ensures Distinct(OrphanContext(events))
    ensures forall t :: t in OrphanContext(events) <==>
              t != "" && TurnHas(events, t, IsContextActivity) && !TurnHas(events, t, IsStarted)
    ensures forall i, j | 0 <= i < j < |OrphanContext(events)| ::
              FirstSeq(EventsByTurn(events), OrphanContext(events)[i])
              <= FirstSeq(EventsByTurn(events), OrphanContext(events)[j])
  {
    var anchored, key := TurnsWith(events, IsStarted), ByFirstSeq(EventsByTurn(events));
    var turns := Unanchored(ContextTurns(events), anchored);
    ContextTurnsAre(events);
    UnanchoredAre(ContextTurns(events), anchored);
    SubsequenceDistinct(turns, ContextTurns(events));
    SortDistinct(turns, key);
    SortSorts(turns, key);
    forall t ensures t in OrphanContext(events) <==>
                     t != "" && TurnHas(events, t, IsContextActivity) && !TurnHas(events, t, IsStarted)
    {
      SortMember(turns, key, t);
      TurnsWithIsTurnHas(events, t, IsContextActivity);
      TurnsWithIsTurnHas(events, t, IsStarted);
    }
    assert forall i, j | 0 <= i < j < |OrphanContext(events)| ::
             key(OrphanContext(events)[i]) <= key(OrphanContext(events)[j]);
  }

  // ------------------------------------------------------------ reuse of arrays

  function Unnumbered<T>(a: Arr<T>): Arr<T> {
    Arr(0, a.items)
  }

  function UnnumberedAll<T>(m: map<string, Arr<T>>): map<string, Arr<T>> {
    map key | key in m :: Unnumbered(m[key])
  }

  /** The projection without the identity of its arrays. */
  function WithoutIdentity(p: Projection): Projection {
    p.(eventsByTurn := UnnumberedAll(p.eventsByTurn),
       turnIdsByUserMessage := UnnumberedAll(p.turnIdsByUserMessage),
       turnIdsByAssistantMessage := UnnumberedAll(p.turnIdsByAssistantMessage),
       orphanContextActivityTurnIds := Unnumbered(p.orphanContextActivityTurnIds),
       orphanTurnErrors := Unnumbered(p.orphanTurnErrors))
  }

  lemma {:induction false} StableItems<T>(previous: map<string, Arr<T>>, next: map<string, seq<T>>, run: nat)
    ensures UnnumberedAll(Stable(previous, next, run)) == map key | key in next :: Arr(0, next[key])
  {
  }

  /** Whatever projection came before, and however many, the contents are those of a first
      projection. */
  lemma {:induction false} ReuseKeepsContents(events: seq<Event>, previous: Option<Projection>, run: nat)
    ensures WithoutIdentity(Project(events, previous, run)) == WithoutIdentity(Project(events, None, run))
  {
    StableItems(PreviousEvents(previous), EventsByTurn(events), run);
    StableItems(PreviousEvents(None), EventsByTurn(events), run);
    StableItems(PreviousByUser(previous), TurnsByMessage(events, StartedBy), run);
    StableItems(PreviousByUser(None), TurnsByMessage(events, StartedBy), run);
    StableItems(PreviousByAssistant(previous), TurnsByMessage(events, AnsweredBy), run);
    StableItems(PreviousByAssistant(None), TurnsByMessage(events, AnsweredBy), run);
  }

  lemma {:induction false} TurnEventsPlus(events: seq<Event>, more: seq<Event>, turn: string)
    ensures TurnEvents(events + more, turn) == TurnEvents(events, turn) + TurnEvents(more, turn)
    decreases |more|
  {
    if more == [] {
      assert events + more == events;
    } else {
      assert (events + more)[..|events + more| - 1] == events + more[..|more| - 1];
      TurnEventsPlus(events, more[..|more| - 1], turn);
    }
  }

  lemma {:induction false} StableArray(
      previous: map<string, Arr<Event>>, next: map<string, seq<Event>>, run: nat, key: string)
    requires key in previous && key in next && previous[key].run != run
    ensures Stable(previous, next, run)[key].run == previous[key].run <==> previous[key].items == next[key]
  {
  }

  lemma {:induction false} NoNewEvents(more: seq<Event>, turn: string)
    ensures TurnEvents(more, turn) == [] <==> forall e <- more :: e.turnId != Some(turn)
  {
    TurnEventsAre(more, turn);
    assert TurnEvents(more, turn) == [] || TurnEvents(more, turn)[0] in TurnEvents(more, turn);
  }

  /** When the log grows, a turn keeps the very array it had exactly when none of the new
      events is its own. */
  lemma {:induction false} UntouchedTurnsKeepTheirArray(
    events: seq<Event>, more: seq<Event>, was: Projection, first: Option<Projection>, run: nat, next: nat, turn: string)
    requires was == Project(events, first, run)
    requires turn in was.eventsByTurn && was.eventsByTurn[turn].run != next
    ensures var now := Project(events + more, Some(was), next);
            turn in now.eventsByTurn &&
            (now.eventsByTurn[turn].run == was.eventsByTurn[turn].run <==> forall e <- more :: e.turnId != Some(turn))
  {
    EventsByTurnAre(events, first, run, turn);
    EventsByTurnAre(events + more, Some(was), next, turn);
    TurnEventsPlus(events, more, turn);
    NoNewEvents(more, turn);
    StableArray(was.eventsByTurn, EventsByTurn(events + more), next, turn);
  }
}
