/** What a session gets done: retaining or retrying starts a load, a load that nothing cuts
    off opens a stream, and what is delivered is accepted, remembered and handed on. */
module SessionProgress {
  import opened Prelude
  import opened SessionProtocol

  // ----------------------------------------------------------------- loads

  /** The session holds the load of controller `c`, and nothing has superseded it. */
  predicate Holds(s: Session, c: nat) {
    && s.loadController == Some(c) && c in s.loads && c !in s.aborted
    && s.loads[c].generation == s.loadGeneration
  }

  predicate LoadBegun(s: Session, c: nat) {
    Holds(s, c) && !s.loads[c].published
  }

  /** The first retain of a session starts a load. */
  lemma {:induction false} FirstRetainLoads(s: Session)
    requires SessionValid(s) && s.retainCount == 0
    ensures var t := Step(s, Retain);
            t.retainCount == 1 && t.loadController.Some? && LoadBegun(t, t.loadController.value)
            && t.loadController.value !in s.loads && t.disconnects == s.disconnects
  {
  }

  lemma {:induction false} Disconnected(s: Session)
    requires SessionValid(s)
    ensures var d := Disconnect(s);
            && d.stream.None? && d.loadController.None? && d.openStreams == {} && d.retainCount == s.retainCount
            && d.nextHandle == s.nextHandle && d.loads == s.loads && d.disconnects == s.disconnects + 1
            && forall c | c in d.aborted :: c < d.nextHandle
  {
  }

  /** Every retry of a retained session closes its stream and starts a new load. */
  lemma {:induction false} RetryLoads(s: Session)
    requires SessionValid(s) && s.retainCount > 0
    ensures var t := Step(s, Retry);
            t.retainCount == s.retainCount && t.stream.None? && t.openStreams == {}
            && t.loadController.Some? && LoadBegun(t, t.loadController.value)
            && t.loadController.value !in s.loads && t.disconnects == s.disconnects + 1
  {
    Disconnected(s);
  }

  /** Without a retain a retry leaves the session alone. */
  lemma {:induction false} RetryWithoutRetain(s: Session)
    requires SessionValid(s) && s.retainCount == 0
    ensures Quiet(Step(s, Retry))
  {
    DisconnectKeepsOk(s);
  }

  // ------------------------------------------------------- from load to stream

  lemma {:induction false} ReceiveFrames(s: Session, event: Event)
    requires s.retainCount > 0
    ensures var r := Receive(s, event);
            && r.retainCount == s.retainCount && r.loadController == s.loadController && r.loads == s.loads
            && r.aborted == s.aborted && r.loadGeneration == s.loadGeneration && r.stream == s.stream
            && r.disconnects == s.disconnects && r.catchUpController == s.catchUpController
  {
  }

  lemma {:induction false} ReceiveAllFrames(s: Session, events: seq<Event>)
    requires s.retainCount > 0
    ensures var r := ReceiveAll(s, events);
            && r.retainCount == s.retainCount && r.loadController == s.loadController && r.loads == s.loads
            && r.aborted == s.aborted && r.loadGeneration == s.loadGeneration && r.stream == s.stream
            && r.disconnects == s.disconnects && r.catchUpController == s.catchUpController
  {
    if events != [] {
      ReceiveAllFrames(s, events[..|events| - 1]);
      ReceiveFrames(ReceiveAll(s, events[..|events| - 1]), events[|events| - 1]);
    }
  }

  /** The step ends the load itself. */
  predicate Ends(op: Op, c: nat) {
    op == LoadOpensStream(c) || op == LoadFails(c)
  }

  predicate Publishes(op: Op, c: nat) {
    op.LoadReady? && op.controller == c
  }

  /** The load goes on, published once its result is there. */
  ghost predicate GoesOn(s: Session, t: Session, c: nat, publishes: bool)
    requires Holds(s, c)
  {
    && Holds(t, c) && t.retainCount > 0 && t.disconnects == s.disconnects
    && (s.loads[c].published || publishes ==> t.loads[c].published)
  }

  lemma {:induction false} LoadStepGoesOn(s: Session, op: Op, c: nat)
    requires SessionOk(s) && Holds(s, c) && s.retainCount > 0 && !Ends(op, c)
    requires op.LoadReady? || op.LoadOpensStream? || op.LoadFails?
    ensures GoesOn(s, Step(s, op), c, Publishes(op, c))
  {
    if op.LoadReady? { RememberAllFrames(s, op.ids); }
  }

  lemma {:induction false} EventStepGoesOn(s: Session, op: Op, c: nat)
    requires SessionOk(s) && Holds(s, c) && s.retainCount > 0
    requires op.EventArrives? || op.ActivityArrives? || op.CatchUpArrives?
    ensures GoesOn(s, Step(s, op), c, false)
  {
    if op.CatchUpArrives? { ReceiveAllFrames(s, op.events); } else { ReceiveFrames(s, op.event); }
  }

  lemma {:induction false} OtherStepGoesOn(s: Session, op: Op, c: nat)
    requires SessionOk(s) && Holds(s, c) && s.retainCount > 0 && Step(s, op).disconnects <= s.disconnects
    requires op.Retain? || op.Release? || op.Retry? || op.Dispose? || op.CatchUpStarts? || op.TimerFires?
    ensures GoesOn(s, Step(s, op), c, false)
  {
  }

  lemma {:induction false} StepGoesOn(s: Session, op: Op, c: nat)
    requires SessionOk(s) && Holds(s, c) && s.retainCount > 0 && !Ends(op, c)
    requires Step(s, op).disconnects <= s.disconnects
    ensures GoesOn(s, Step(s, op), c, Publishes(op, c))
  {
    if op.LoadReady? || op.LoadOpensStream? || op.LoadFails? {
      LoadStepGoesOn(s, op, c);
    } else if op.EventArrives? || op.ActivityArrives? || op.CatchUpArrives? {
      EventStepGoesOn(s, op, c);
    } else {
      OtherStepGoesOn(s, op, c);
    }
  }

  lemma {:induction false} ReceiveDisconnects(s: Session, event: Event)
    ensures s.disconnects <= Receive(s, event).disconnects
  {
  }

  lemma {:induction false} ReceiveAllDisconnects(s: Session, events: seq<Event>)
    ensures s.disconnects <= ReceiveAll(s, events).disconnects
  {
    if events != [] {
      ReceiveAllDisconnects(s, events[..|events| - 1]);
      ReceiveDisconnects(ReceiveAll(s, events[..|events| - 1]), events[|events| - 1]);
    }
  }

  lemma {:induction false} DisconnectsGrow(s: Session, op: Op)
    ensures s.disconnects <= Step(s, op).disconnects
  {
    if op.LoadReady? { RememberAllFrames(s, op.ids); }
    if op.EventArrives? || op.ActivityArrives? { ReceiveDisconnects(s, op.event); }
    if op.CatchUpArrives? { ReceiveAllDisconnects(s, op.events); }
  }

  lemma {:induction false} RunDisconnectsGrow(s: Session, ops: seq<Op>)
    ensures s.disconnects <= Steps(s, ops).disconnects
  {
    if ops != [] {
      RunDisconnectsGrow(s, ops[..|ops| - 1]);
      DisconnectsGrow(Steps(s, ops[..|ops| - 1]), ops[|ops| - 1]);
    }
  }

  /** In a run that does not disconnect the session holds its load until the load ends. */
  lemma {:induction false} LoadGoesOn(s: Session, ops: seq<Op>, c: nat)
    requires SessionOk(s) && Holds(s, c) && s.retainCount > 0
    requires Steps(s, ops).disconnects == s.disconnects && forall op <- ops :: !Ends(op, c)
    ensures SessionOk(Steps(s, ops))
    ensures GoesOn(s, Steps(s, ops), c, exists op <- ops :: Publishes(op, c))
  {
    if ops != [] {
      var init, last := ops[..|ops| - 1], ops[|ops| - 1];
      var mid := Steps(s, init);
      assert ops == init + [last];
      RunDisconnectsGrow(s, init);
      DisconnectsGrow(mid, last);
      LoadGoesOn(s, init, c);
      StepGoesOn(mid, last, c);
      StepKeepsOk(mid, last);
    }
  }

  /** A load whose result has come, that has not failed, and that no disconnect has cut off,
      opens a stream, whatever else has happened in the meantime. */
  lemma {:induction false} LoadOpensAStream(s: Session, ops: seq<Op>, c: nat)
    requires SessionOk(s) && LoadBegun(s, c) && s.retainCount > 0
    requires Steps(s, ops).disconnects == s.disconnects && forall op <- ops :: !Ends(op, c)
    requires exists op <- ops :: Publishes(op, c)
    ensures var t := Step(Steps(s, ops), LoadOpensStream(c)); t.stream.Some? && t.openStreams == {t.stream.value}
  {
    LoadGoesOn(s, ops, c);
    var mid := Steps(s, ops);
    assert IsCurrent(mid, c) && mid.stream.None?;
  }

  /** ... so that a first retain leads to a stream. */
  lemma {:induction false} RetainLeadsToAStream(s: Session, ops: seq<Op>)
    requires SessionValid(s) && s.retainCount == 0
    requires var t := Step(s, Retain);
             var c := if t.loadController.Some? then t.loadController.value else 0;
             && Steps(t, ops).disconnects == t.disconnects
             && (forall op <- ops :: !Ends(op, c)) && (exists op <- ops :: Publishes(op, c))
    ensures var t := Step(s, Retain);
            t.loadController.Some? && Step(Steps(t, ops), LoadOpensStream(t.loadController.value)).stream.Some?
  {
    FirstRetainLoads(s);
    StepKeepsValid(s, Retain);
    LoadOpensAStream(Step(s, Retain), ops, Step(s, Retain).loadController.value);
  }

  /** A load is reported, as a result or as a failure, exactly while the session holds it, and
      once it has failed it opens no stream any more. */
  lemma {:induction false} LoadIsReportedExactly(s: Session, c: nat, ids: seq<Id>)
    requires SessionValid(s) && c in s.loads && !s.loads[c].published && s.retainCount > 0
    ensures var t, u := Step(s, LoadReady(c, ids)), Step(s, LoadFails(c));
            && (|t.loadActions| == |s.loadActions| + 1 <==> Holds(s, c))
            && (|u.loadActions| == |s.loadActions| + 1 <==> Holds(s, c))
            && (Holds(s, c) <==> c in t.loads && t.loads[c].published) && c !in u.loads
            && Step(u, LoadOpensStream(c)) == u
  {
    RememberAllFrames(s, ids);
  }

  // ---------------------------------------------------------------- events

  /** An event is accepted exactly when it is the session's own and its id is not among the
      remembered ones; then its id is remembered, and a tool start leaves nothing pending. */
  lemma {:induction false} EventIsAcceptedExactly(s: Session, event: Event)
    requires SessionOk(s)
    ensures var t := Step(s, EventArrives(event));
            if event.threadId == s.threadId && event.id !in s.eventIds
            then t.accepted == s.accepted + [event] && event.id in t.eventIds
              && (event.kind.ToolCallStarted? ==> t.pendingEvents == [] && t.reduced == t.accepted)
            else t == s
  {
    ReceiveKeepsOk(s, event);
    assert (s.eventIds + [event.id])[|s.eventIds|] == event.id;
    if |s.eventIds| >= MAX_IDS { assert (s.eventIds + [event.id])[1..][|s.eventIds| - 1] == event.id; }
  }

  /** A timer that is set hands on all that is pending. */
  lemma {:induction false} TimerHandsOn(s: Session)
    requires SessionOk(s)
    ensures var t := Step(s, TimerFires); t.pendingEvents == [] && t.reduced == s.accepted && t.accepted == s.accepted
  {
    assert s.pendingEvents == [] ==> s.reduced + [] == s.reduced;
  }

  ghost predicate Taken(s: Session, t: Session, id: Id) {
    && s.accepted <= t.accepted
    && exists i | |s.accepted| <= i < |t.accepted| :: t.accepted[i].id == id
  }

  /** Ids only come in with the events accepted. */
  ghost predicate IdsFrom(s: Session, t: Session) {
    && s.accepted <= t.accepted && t.threadId == s.threadId
    && forall id <- t.eventIds :: id in s.eventIds || Taken(s, t, id)
  }

  lemma {:induction false} AcceptedOnce(s: Session, t: Session, event: Event)
    requires IdsFrom(s, t)
    ensures IdsFrom(s, Receive(t, event))
    ensures event.threadId == s.threadId && event.id !in s.eventIds ==> Taken(s, Receive(t, event), event.id)
    ensures forall id | Taken(s, t, id) :: Taken(s, Receive(t, event), id)
  {
    var r := Receive(t, event);
    ReceiveFrame(t, event);
    ReceiveThread(t, event);
    if !(event.threadId != t.threadId || event.id in t.eventIds) {
      assert r.accepted[|t.accepted|] == event;
      assert Taken(s, r, event.id);
      forall id | Taken(s, t, id) ensures Taken(s, r, id) { StillTaken(s, t, r, id); }
    }
  }

  lemma {:induction false} ReceiveThread(s: Session, event: Event)
    ensures Receive(s, event).threadId == s.threadId
  {
  }

  lemma {:induction false} StillTaken(s: Session, t: Session, r: Session, id: Id)
    requires Taken(s, t, id) && t.accepted <= r.accepted
    ensures Taken(s, r, id)
  {
    var i :| |s.accepted| <= i < |t.accepted| && t.accepted[i].id == id;
    assert r.accepted[i] == t.accepted[i];
  }

  lemma {:induction false} AllAreTaken(s: Session, events: seq<Event>)
    ensures IdsFrom(s, ReceiveAll(s, events))
    ensures forall event <- events | event.threadId == s.threadId && event.id !in s.eventIds ::
              Taken(s, ReceiveAll(s, events), event.id)
  {
    if events != [] {
      var init, last := events[..|events| - 1], events[|events| - 1];
      AllAreTaken(s, init);
      AcceptedOnce(s, ReceiveAll(s, init), last);
      assert events == init + [last];
    }
  }

  /** What a catch-up brings is accepted, unless it is known: for every event of the thread
      with an unknown id, one with this id is accepted. */
  lemma {:induction false} CatchUpIsAccepted(s: Session, c: nat, events: seq<Event>, event: Event)
    requires s.retainCount > 0 && c !in s.aborted && event in events
    requires event.threadId == s.threadId && event.id !in s.eventIds
    ensures Taken(s, Step(s, CatchUpArrives(c, events)), event.id)
  {
    AllAreTaken(s, events);
    assert Step(s, CatchUpArrives(c, events)).accepted == ReceiveAll(s, events).accepted;
  }

  /** An event of the activity stream is accepted like any other while the session is
      retained; if it ends a turn, a catch-up follows, which supersedes one that is running. */
  lemma {:induction false} TerminalEventIsCaughtUp(s: Session, event: Event)
    requires SessionOk(s) && s.retainCount > 0 && event.threadId == s.threadId
    ensures var t := Step(s, ActivityArrives(event));
            && t.accepted == s.accepted + (if event.id in s.eventIds then [] else [event])
            && (event.kind.Terminal? ==>
                  var u := Step(t, CatchUpStarts);
                  && u.catchUpController.Some? && u.catchUpController.value !in u.aborted
                  && (t.catchUpController.Some? ==> t.catchUpController.value in u.aborted))
  {
    ActivityKeepsOk(s, event);
    ReceiveFrame(s, event);
    assert s.accepted + [] == s.accepted;
  }

  lemma {:induction false} AllAreRemembered(s: Session, ids: seq<Id>)
    requires WindowOk(s)
    ensures s.remembered <= RememberAll(s, ids).remembered
    ensures forall id <- ids :: id in RememberAll(s, ids).remembered
  {
    if ids != [] {
      var init, last := ids[..|ids| - 1], ids[|ids| - 1];
      var r := RememberAll(s, init);
      AllAreRemembered(s, init);
      RememberAllKeepsWindow(s, init);
      LatestAreRemembered(r, last);
      assert ids == init + [last];
      assert RememberAll(s, ids) == Remember(r, last);
    }
  }

  lemma {:induction false} LatestAreRemembered(s: Session, id: Id)
    requires WindowOk(s)
    ensures s.remembered <= Remember(s, id).remembered && id in Remember(s, id).remembered
  {
    assert id in s.eventIds ==> id in s.remembered;
  }

  /** A load that is published has its ids remembered. */
  lemma {:induction false} LoadedIdsAreRemembered(s: Session, c: nat, ids: seq<Id>)
    requires SessionValid(s) && LoadBegun(s, c)
    ensures forall id <- ids :: id in Step(s, LoadReady(c, ids)).remembered
  {
    AllAreRemembered(s, ids);
    StepFrame(s, LoadReady(c, ids));
    RememberAllFrames(s, ids);
  }
}
