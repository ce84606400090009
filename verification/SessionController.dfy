/** The session controller as an object. Its methods take the steps of the protocol, and
    between calls it is `Valid`: one stream at most, nothing open or loading unless somebody
    retains the session, no accepted event lost or out of order, and the remembered ids are
    the latest ones. */
module SessionController {
  import opened Prelude
  import opened SessionProtocol

  class ConversationSessionController {
    const threadId: Id
    var retainCount: nat
    var loadGeneration: nat
    var loadController: Option<nat>
    var catchUpController: Option<nat>
    var catchUpsDue: nat
    var stream: Option<nat>
    var pendingEvents: seq<Event>
    var eventBatchTimer: bool
    var eventIds: seq<Id>
    var aborted: set<nat>
    var nextHandle: nat
    var loads: map<nat, Load>
    var disconnects: nat
    ghost var openStreams: set<nat>
    ghost var loadActions: seq<(nat, nat)>
    ghost var accepted: seq<Event>
    ghost var reduced: seq<Event>
    ghost var remembered: seq<Id>

    constructor (threadId: Id)
      ensures Value() == New(threadId) && Valid()
    {
      this.threadId := threadId;
      retainCount, loadGeneration, loadController, catchUpController, catchUpsDue := 0, 0, None, None, 0;
      stream, pendingEvents, eventBatchTimer, eventIds := None, [], false, [];
      aborted, nextHandle, loads := {}, 0, map[];
      openStreams, disconnects, loadActions := {}, 0, [];
      accepted, reduced, remembered := [], [], [];
      new;
      NewIsValid(threadId);
    }

    ghost predicate Valid()
      reads this
    {
      SessionValid(Value())
    }

    ghost function Value(): Session
      reads this
    {
      Session(threadId, retainCount, loadGeneration, loadController, catchUpController, catchUpsDue, stream,
              pendingEvents, eventBatchTimer, eventIds, aborted, nextHandle, loads, openStreams, disconnects,
              loadActions, accepted, reduced, remembered)
    }

    method FlushPendingEvents()
      modifies this
      ensures Value() == Flush(old(Value()))
    {
      eventBatchTimer := false;
      if pendingEvents == [] { return; }
      reduced := reduced + pendingEvents;
      pendingEvents := [];
      if retainCount == 0 && stream.Some? { DisconnectNow(); }
    }

    /** `disconnect`. The events it flushes go to the reducer when the stream is gone. */
    method DisconnectNow()
      modifies this
      ensures Value() == Disconnect(old(Value()))
    {
      AbortRunningLoads();
      CloseOpenStream();
      DrainPendingEvents();
    }

    method AbortRunningLoads()
      modifies this
      ensures Value() == AbortLoads(old(Value()))
    {
      loadGeneration := loadGeneration + 1;
      aborted := aborted + HandlesOf(loadController) + HandlesOf(catchUpController);
      loadController := None;
      catchUpController := None;
    }

    method CloseOpenStream()
      modifies this
      ensures Value() == CloseStream(old(Value()))
    {
      openStreams := openStreams - HandlesOf(stream);
      stream := None;
      disconnects := disconnects + 1;
    }

    method DrainPendingEvents()
      modifies `eventBatchTimer, `reduced, `pendingEvents
      ensures Value() == Drain(old(Value()))
    {
      eventBatchTimer := false;
      reduced := reduced + pendingEvents;
      pendingEvents := [];
    }

    /** What follows the listeners in `dispatch`. */
    method EndDispatch()
      modifies this
      ensures Value() == AfterDispatch(old(Value()))
    {
      if retainCount == 0 && stream.Some? { DisconnectNow(); }
    }

    method ConnectNow()
      modifies this
      ensures Value() == Connect(old(Value()))
    {
      if loadController.Some? || stream.Some? { return; }
      loadGeneration := loadGeneration + 1;
      var controller := nextHandle;
      nextHandle := nextHandle + 1;
      loadController := Some(controller);
      loads := loads[controller := Load(loadGeneration, false, disconnects)];
      EndDispatch();
    }

    method RetainSession()
      requires Valid()
      modifies this
      ensures Value() == Step(old(Value()), Retain)
      ensures Valid() && Orderly(Value())
    {
      StepKeepsValid(Value(), Retain);
      retainCount := retainCount + 1;
      if retainCount == 1 { ConnectNow(); }
    }

    /** The function that `retain` returns. */
    method ReleaseSession()
      requires Valid()
      modifies this
      ensures Value() == Step(old(Value()), Release)
      ensures Valid() && Orderly(Value())
      ensures retainCount == 0 ==> Quiet(Value())
    {
      StepKeepsValid(Value(), Release);
      LastReleaseIsQuiet(Value());
      retainCount := if retainCount == 0 then 0 else retainCount - 1;
      if retainCount == 0 { DisconnectNow(); }
    }

    method RetrySession()
      requires Valid()
      modifies this
      ensures Value() == Step(old(Value()), Retry)
      ensures Valid() && Orderly(Value())
    {
      StepKeepsValid(Value(), Retry);
      DisconnectNow();
      if retainCount > 0 { ConnectNow(); }
    }

    method DisposeSession()
      requires Valid()
      modifies this
      ensures Value() == Step(old(Value()), Dispose)
      ensures Valid() && Orderly(Value()) && Quiet(Value())
    {
      StepKeepsValid(Value(), Dispose);
      LastReleaseIsQuiet(Value());
      retainCount := 0;
      DisconnectNow();
    }

    method IsCurrentLoad(controller: nat) returns (current: bool)
      requires controller in loads
      ensures current == IsCurrent(Value(), controller)
    {
      current := loads[controller].generation == loadGeneration
        && loadController == Some(controller) && controller !in aborted;
    }

    method RememberEventId(id: Id)
      modifies `eventIds, `remembered
      ensures Value() == Remember(old(Value()), id)
    {
      if id in eventIds { return; }
      eventIds := eventIds + [id];
      remembered := remembered + [id];
      if |eventIds| <= MAX_IDS { return; }
      eventIds := eventIds[1..];
    }

    method QueueEvent(event: Event)
      modifies `eventIds, `remembered, `pendingEvents, `accepted
      ensures var r := Remember(old(Value()), event.id);
              Value() == r.(pendingEvents := r.pendingEvents + [event], accepted := r.accepted + [event])
    {
      RememberEventId(event.id);
      pendingEvents := pendingEvents + [event];
      accepted := accepted + [event];
    }

    method AcceptEvent(event: Event)
      modifies this
      ensures Value() == Receive(old(Value()), event)
    {
      if event.threadId != threadId || event.id in eventIds { return; }
      QueueEvent(event);
      if event.kind.ToolCallStarted? { FlushPendingEvents(); }
      if !eventBatchTimer { eventBatchTimer := true; }
    }

    method ReceiveEvent(event: Event)
      requires Valid()
      modifies this
      ensures Value() == Receive(old(Value()), event)
      ensures Valid() && Orderly(Value())
    {
      StepKeepsValid(Value(), EventArrives(event));
      AcceptEvent(event);
    }

    /** The load continues after its last await. */
    method LoadIsReady(controller: nat, ids: seq<Id>)
      requires Valid()
      modifies this
      ensures Value() == Step(old(Value()), LoadReady(controller, ids))
      ensures Valid() && Orderly(Value())
    {
      StepKeepsValid(Value(), LoadReady(controller, ids));
      if controller !in loads || loads[controller].published { return; }
      var load := loads[controller];
      var current := IsCurrentLoad(controller);
      if !current {
        loads := loads - {controller};
        return;
      }
      for i := 0 to |ids|
        invariant Value() == RememberAll(old(Value()), ids[..i])
      {
        assert ids[..i + 1][..i] == ids[..i];
        RememberEventId(ids[i]);
      }
      assert ids[..|ids|] == ids;
      RememberAllFrames(old(Value()), ids);
      loads := loads[controller := load.(published := true)];
      loadActions := loadActions + [(load.epoch, disconnects)];
      EndDispatch();
    }

    /** The load continues after publishing. */
    method OpenLoadedStream(controller: nat)
      requires Valid()
      modifies this
      ensures Value() == Step(old(Value()), LoadOpensStream(controller))
      ensures Valid() && Orderly(Value())
    {
      StepKeepsValid(Value(), LoadOpensStream(controller));
      if controller !in loads || !loads[controller].published { return; }
      var load := loads[controller];
      var current := IsCurrentLoad(controller);
      loads := loads - {controller};
      if !current || retainCount == 0 { return; }
      TakeNewStream(load.epoch);
    }

    method TakeNewStream(epoch: nat)
      modifies `loadActions, `openStreams, `stream, `nextHandle
      ensures Value() == old(Value()).(
                loadActions := old(loadActions) + [(epoch, disconnects)], stream := Some(old(nextHandle)),
                openStreams := old(openStreams) + {old(nextHandle)}, nextHandle := old(nextHandle) + 1)
    {
      loadActions := loadActions + [(epoch, disconnects)];
      openStreams := openStreams + {nextHandle};
      stream := Some(nextHandle);
      nextHandle := nextHandle + 1;
    }

    method FailLoad(controller: nat)
      requires Valid()
      modifies this
      ensures Value() == Step(old(Value()), LoadFails(controller))
      ensures Valid() && Orderly(Value())
    {
      StepKeepsValid(Value(), LoadFails(controller));
      if controller !in loads { return; }
      var load := loads[controller];
      var current := IsCurrentLoad(controller);
      loads := loads - {controller};
      if !current { return; }
      loadActions := loadActions + [(load.epoch, disconnects)];
      EndDispatch();
    }

    method ReceiveActivityEvent(event: Event)
      requires Valid()
      modifies this
      ensures Value() == Step(old(Value()), ActivityArrives(event))
      ensures Valid() && Orderly(Value())
    {
      StepKeepsValid(Value(), ActivityArrives(event));
      if retainCount == 0 || event.threadId != threadId { return; }
      AcceptEvent(event);
      if event.kind.Terminal? { catchUpsDue := catchUpsDue + 1; }
    }

    method StartCatchUp()
      requires Valid()
      modifies this
      ensures Value() == Step(old(Value()), CatchUpStarts)
      ensures Valid() && Orderly(Value())
    {
      StepKeepsValid(Value(), CatchUpStarts);
      if catchUpsDue == 0 { return; }
      catchUpsDue := catchUpsDue - 1;
      if catchUpController.Some? { aborted := aborted + {catchUpController.value}; }
      catchUpController := Some(nextHandle);
      nextHandle := nextHandle + 1;
    }

    method ReceiveEvents(events: seq<Event>)
      requires Valid()
      modifies this
      ensures Value() == ReceiveAll(old(Value()), events) && Valid()
    {
      for i := 0 to |events|
        invariant Value() == ReceiveAll(old(Value()), events[..i]) && Valid()
      {
        assert events[..i + 1][..i] == events[..i];
        ReceiveEvent(events[i]);
      }
      assert events[..|events|] == events;
    }

    method FinishCatchUp(controller: nat, events: seq<Event>)
      requires Valid()
      modifies this
      ensures Value() == Step(old(Value()), CatchUpArrives(controller, events))
      ensures Valid() && Orderly(Value())
    {
      StepKeepsValid(Value(), CatchUpArrives(controller, events));
      if !(controller in aborted || retainCount == 0) {
        ReceiveEvents(events);
      }
      if catchUpController == Some(controller) { catchUpController := None; }
    }

    method FireTimer()
      requires Valid()
      modifies this
      ensures Value() == Step(old(Value()), TimerFires)
      ensures Valid() && Orderly(Value())
    {
      StepKeepsValid(Value(), TimerFires);
      if eventBatchTimer { FlushPendingEvents(); }
    }
  }
}
