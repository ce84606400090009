/** What the small fields of a projection answer, told from the events themselves. */
module ProjectionAnswers {
  import opened Prelude
  import opened StableSort
  import opened EventProjection

  /** The event is of the turn, and the turn has a name. */
  predicate OfTurn(e: Event, turn: string) {
    turn != "" && e.turnId == Some(turn)
  }

  /** The settled turns have ended in one of three ways. */
  lemma {:induction false} SettledTurnsAre(events: seq<Event>, previous: Option<Projection>, run: nat, turn: string)
    ensures turn in Project(events, previous, run).settledTurnIds <==>
            exists e <- events :: OfTurn(e, turn)
              && (e.payload.TurnFinished? || e.payload.TurnCancelled? || e.payload.ErrorRaised?)
  {
    TurnsWithAre(events, IsTerminal, turn);
  }

  lemma {:induction false} TurnsWithAre(events: seq<Event>, kind: Event -> bool, turn: string)
    ensures turn in TurnsWith(events, kind) <==> exists e <- events :: OfTurn(e, turn) && kind(e)
  {
    if exists e <- events :: OfTurn(e, turn) && kind(e) {
      var e :| e in events && OfTurn(e, turn) && kind(e);
      assert TurnOf(e) == Some(turn);
    }
  }

  /** The turns with a card are those with an answer. */
  lemma {:induction false} CardTurnsAre(events: seq<Event>, previous: Option<Projection>, run: nat, turn: string)
    ensures turn in Project(events, previous, run).turnsWithAssistantCards <==>
            exists e <- events :: OfTurn(e, turn) && e.payload.AssistantMessage?
  {
    TurnsWithAre(events, IsAnswer, turn);
  }

  /** The reverted turns are those whose changes were recorded as reverted, and those that an
      undo names, whatever turn the undo belongs to. */
  lemma {:induction false} RevertedTurnsAre(events: seq<Event>, previous: Option<Projection>, run: nat, turn: string)
    ensures turn in Project(events, previous, run).revertedTurnIds <==>
            || (exists e <- events :: OfTurn(e, turn) && e.payload.ChangesRecorded? && e.payload.changeSet.reverted)
            || exists e <- events :: e.payload.UndoCompleted? && e.payload.targetTurnId == turn
  {
    TurnsWithAre(events, IsRevertedRecord, turn);
  }

  /** The turns of a user message are those that it has started, each once; a message that
      has started none is not listed. */
  lemma {:induction false} UserMessageTurnsAre(
      events: seq<Event>, previous: Option<Projection>, run: nat, message: string, turn: string)
    ensures var turns := Project(events, previous, run).turnIdsByUserMessage;
            && (message in turns ==> turns[message].items != [] && Distinct(turns[message].items))
            && (message in turns && turn in turns[message].items <==>
                exists e <- events :: OfTurn(e, turn) && e.payload == TurnStarted(message))
  {
    StableItems(PreviousByUser(previous), TurnsByMessage(events, StartedBy), run);
    MessageTurnsAre(events, StartedBy, message, turn);
    forall e ensures StartedBy(e) == Some(message) <==> e.payload == TurnStarted(message) { }
  }

  /** Likewise the turns of an answer. */
  lemma {:induction false} AnswerTurnsAre(
      events: seq<Event>, previous: Option<Projection>, run: nat, message: string, turn: string)
    ensures var turns := Project(events, previous, run).turnIdsByAssistantMessage;
            && (message in turns ==> turns[message].items != [] && Distinct(turns[message].items))
            && (message in turns && turn in turns[message].items <==>
                exists e <- events :: OfTurn(e, turn) && e.payload == AssistantMessage(message))
  {
    StableItems(PreviousByAssistant(previous), TurnsByMessage(events, AnsweredBy), run);
    MessageTurnsAre(events, AnsweredBy, message, turn);
    forall e ensures AnsweredBy(e) == Some(message) <==> e.payload == AssistantMessage(message) { }
  }

  lemma {:induction false} MessageTurnsAre(
      events: seq<Event>, tie: Event -> Option<string>, message: string, turn: string)
    ensures var turns := TurnsByMessage(events, tie);
            && (message in turns ==> turns[message] != [] && Distinct(turns[message]))
            && (message in turns && turn in turns[message] <==>
                exists e <- events :: OfTurn(e, turn) && tie(e) == Some(message))
  {
    TurnsForMember(events, tie, message, turn);
    TurnsForAre(events, tie, message);
    if message in Messages(events, tie) {
      var e :| e in events && TurnOf(e).Some? && tie(e) == Some(message);
      TurnsForMember(events, tie, message, TurnOf(e).value);
    }
    if exists e <- events :: OfTurn(e, turn) && tie(e) == Some(message) {
      var e :| e in events && OfTurn(e, turn) && tie(e) == Some(message);
      assert TurnOf(e) == Some(turn);
    }
  }

  /** The changes of a turn are shown exactly when they were recorded, the turn has ended, and
      it has written to the workspace or was neither cancelled nor failed; shown are those
      recorded last. */
  lemma {:induction false} ChangesAreShownExactly(
      events: seq<Event>, previous: Option<Projection>, run: nat, turn: string, last: nat)
    requires last < |events| && OfTurn(events[last], turn) && events[last].payload.ChangesRecorded?
    requires forall k | last < k < |events| && OfTurn(events[k], turn) :: !events[k].payload.ChangesRecorded?
    ensures var shown := Project(events, previous, run).changeSetsByTurn;
            && (turn in shown <==>
                && (exists e <- events :: OfTurn(e, turn)
                      && (e.payload.TurnFinished? || e.payload.TurnCancelled? || e.payload.ErrorRaised?))
                && ((exists e <- events :: OfTurn(e, turn) && IsWorkspaceWrite(e))
                    || !exists e <- events :: OfTurn(e, turn) && (e.payload.TurnCancelled? || e.payload.ErrorRaised?)))
            && (turn in shown ==> shown[turn] == events[last].payload.changeSet)
  {
    LastRecordedIsLast(events, turn, last);
    ShownByMembership(events, turn);
    TurnsWithAre(events, IsTerminal, turn);
    TurnsWithAre(events, IsWorkspaceWrite, turn);
    TurnsWithAre(events, IsCancelledOrFailed, turn);
    TurnsWithAre(events, IsRecord, turn);
    assert events[last] in events;
  }

  /** Changes that were not recorded are not shown. */
  lemma {:induction false} OnlyRecordedChangesAreShown(
      events: seq<Event>, previous: Option<Projection>, run: nat, turn: string)
    requires turn in Project(events, previous, run).changeSetsByTurn
    ensures exists e <- events :: OfTurn(e, turn) && e.payload.ChangesRecorded?
  {
    TurnsWithAre(events, IsRecord, turn);
  }

  // ---------------------------------------------------------- orphan errors

  /** An error that belongs to no turn that a user message has started. */
  ghost predicate IsOrphan(events: seq<Event>, e: Event) {
    e.payload.ErrorRaised? &&
    forall turn | OfTurn(e, turn) :: !exists start <- events :: OfTurn(start, turn) && start.payload.TurnStarted?
  }

  lemma {:induction false} OrphanIs(events: seq<Event>, e: Event)
    ensures IsOrphan(events, e) <==>
            IsError(e) && (TurnOf(e).None? || TurnOf(e).value !in TurnsWith(events, IsStarted))
  {
    if TurnOf(e).Some? {
      assert OfTurn(e, TurnOf(e).value);
      TurnsWithAre(events, IsStarted, TurnOf(e).value);
    } else {
      assert forall turn :: !OfTurn(e, turn);
    }
  }

  lemma {:induction false} OrphanErrorsStep(errors: seq<Event>, e: Event, anchored: set<string>)
    ensures OrphanErrors(errors + [e], anchored) == OrphanErrors(errors, anchored)
            + if TurnOf(e).None? || TurnOf(e).value !in anchored then [e] else []
  {
    Snoc(errors, e);
  }

  ghost predicate Kept(all: seq<Event>, kept: seq<Event>, events: seq<Event>) {
    && Subsequence(kept, events)
    && forall e :: multiset(kept)[e] == if IsOrphan(all, e) then multiset(events)[e] else 0
  }

  lemma {:induction false} KeepOne(all: seq<Event>, kept: seq<Event>, events: seq<Event>, e: Event)
    requires Kept(all, kept, events)
    ensures Kept(all, kept + if IsOrphan(all, e) then [e] else [], events + [e])
  {
    SubsequenceSnoc(kept, events, e);
    assert kept + [] == kept;
  }

  lemma {:induction false} ErrorsAreKept(all: seq<Event>, events: seq<Event>)
    ensures Kept(all, OrphanErrors(Filter(events, IsError), TurnsWith(all, IsStarted)), events)
  {
    if events != [] {
      var init, e := events[..|events| - 1], events[|events| - 1];
      var errors, anchored := Filter(init, IsError), TurnsWith(all, IsStarted);
      assert events == init + [e];
      ErrorsAreKept(all, init);
      ErrorsStep(init, e);
      OrphanErrorsStep(errors, e, anchored);
      OrphanIs(all, e);
      assert errors + [] == errors && OrphanErrors(errors, anchored) + [] == OrphanErrors(errors, anchored);
      KeepOne(all, OrphanErrors(errors, anchored), init, e);
    }
  }

  /** The orphan errors are all errors of the log that no started turn holds, each as often
      as the log has it and in the order of the log. */
  lemma {:induction false} OrphanErrorsAre(events: seq<Event>, previous: Option<Projection>, run: nat)
    ensures var errors := Project(events, previous, run).orphanTurnErrors.items;
            && Subsequence(errors, events)
            && forall e :: multiset(errors)[e] == if IsOrphan(events, e) then multiset(events)[e] else 0
  {
    ErrorsAreKept(events, events);
  }
}
