/** The connect, load and stream protocol of one conversation session. The asynchronous
    bodies are cut at their awaits into steps that interleave freely with retaining,
    releasing, retrying and incoming events; a load is also cut between publishing its
    result and opening the stream, because publishing runs listeners that may release or
    retry the session. */
module SessionProtocol {
  import opened Prelude

  type Id = nat

  datatype EventKind = ToolCallStarted | Terminal | OtherKind

  datatype Event = Event(id: Id, threadId: Id, kind: EventKind)

  /** A running load: the generation it was started in, whether it has published, and the
      number of disconnects there had been when it was started. */
  datatype Load = Load(generation: nat, published: bool, epoch: nat)

  /** Abort controllers and streams are numbered in the order of their creation, and a load
      is named by its controller. `catchUpsDue` counts the terminal events whose catch-up is
      about to be started. The last six fields record what has happened; whenever a load
      publishes, reports a failure or opens a stream, `loadActions` gets the number of
      disconnects at its start and now. */
  datatype Session = Session(
    threadId: Id,
    retainCount: nat,
    loadGeneration: nat,
    loadController: Option<nat>,
    catchUpController: Option<nat>,
    catchUpsDue: nat,
    stream: Option<nat>,
    pendingEvents: seq<Event>,
    timer: bool,
    eventIds: seq<Id>,
    aborted: set<nat>,
    nextHandle: nat,
    loads: map<nat, Load>,
    openStreams: set<nat>,
    disconnects: nat,
    loadActions: seq<(nat, nat)>,
    accepted: seq<Event>,
    reduced: seq<Event>,
    remembered: seq<Id>)

  const MAX_IDS := 4096

  function New(threadId: Id): Session {
    Session(threadId, 0, 0, None, None, 0, None, [], false, [], {}, 0, map[], {}, 0, [], [], [], [])
  }

  // ------------------------------------------------------------- event ids

  /** Adding to an insertion-ordered set of bounded size. */
  function Remember(s: Session, id: Id): Session {
    if id in s.eventIds then s
    else
      var ids := s.eventIds + [id];
      s.(eventIds := if |ids| <= MAX_IDS then ids else ids[1..], remembered := s.remembered + [id])
  }

  function RememberAll(s: Session, ids: seq<Id>): Session {
    if ids == [] then s else Remember(RememberAll(s, ids[..|ids| - 1]), ids[|ids| - 1])
  }

  // -------------------------------------------------------- private methods

  /** Hands the pending events to the reducer. */
  function Drain(s: Session): Session {
    s.(timer := false, reduced := s.reduced + s.pendingEvents, pendingEvents := [])
  }

  function HandlesOf(handle: Option<nat>): set<nat> {
    if handle.Some? then {handle.value} else {}
  }

  function AbortLoads(s: Session): Session {
    s.(loadGeneration := s.loadGeneration + 1,
       aborted := s.aborted + HandlesOf(s.loadController) + HandlesOf(s.catchUpController),
       loadController := None, catchUpController := None)
  }

  function CloseStream(s: Session): Session {
    s.(stream := None, openStreams := s.openStreams - HandlesOf(s.stream), disconnects := s.disconnects + 1)
  }

  function Disconnect(s: Session): Session {
    Drain(CloseStream(AbortLoads(s)))
  }

  /** The check at the end of every dispatch. */
  function AfterDispatch(s: Session): Session {
    if s.retainCount == 0 && s.stream.Some? then Disconnect(s) else s
  }

  function Flush(s: Session): Session {
    if s.pendingEvents == [] then s.(timer := false) else AfterDispatch(Drain(s))
  }

  function Connect(s: Session): Session {
    if s.loadController.Some? || s.stream.Some? then s
    else
      AfterDispatch(s.(
        loadGeneration := s.loadGeneration + 1,
        loadController := Some(s.nextHandle),
        nextHandle := s.nextHandle + 1,
        loads := s.loads[s.nextHandle := Load(s.loadGeneration + 1, false, s.disconnects)]))
  }

  predicate IsCurrent(s: Session, controller: nat) {
    && controller in s.loads && s.loads[controller].generation == s.loadGeneration
    && s.loadController == Some(controller) && controller !in s.aborted
  }

  function Receive(s: Session, event: Event): Session {
    if event.threadId != s.threadId || event.id in s.eventIds then s
    else
      var r := Remember(s, event.id);
      var queued := r.(pendingEvents := r.pendingEvents + [event], accepted := r.accepted + [event]);
      var flushed := if event.kind.ToolCallStarted? then Flush(queued) else queued;
      flushed.(timer := true)
  }

  function ReceiveAll(s: Session, events: seq<Event>): Session {
    if events == [] then s else Receive(ReceiveAll(s, events[..|events| - 1]), events[|events| - 1])
  }

  // ---------------------------------------------------------------- steps

  datatype Op =
    | Retain
    | Release
    | Retry
    | Dispose
    | LoadReady(controller: nat, ids: seq<Id>)
    | LoadOpensStream(controller: nat)
    | LoadFails(controller: nat)
    | EventArrives(event: Event)
    | ActivityArrives(event: Event)
    | CatchUpStarts
    | CatchUpArrives(controller: nat, events: seq<Event>)
    | TimerFires

  function PublishLoad(s: Session, c: nat, ids: seq<Id>): Session {
    if c !in s.loads || s.loads[c].published then s
    else if !IsCurrent(s, c) then s.(loads := s.loads - {c})
    else
      var r := RememberAll(s, ids);
      AfterDispatch(r.(
        loads := r.loads[c := s.loads[c].(published := true)],
        loadActions := r.loadActions + [(s.loads[c].epoch, r.disconnects)]))
  }

  function OpenStreamOf(s: Session, c: nat): Session {
    if c !in s.loads || !s.loads[c].published then s
    else
      var done := s.(loads := s.loads - {c});
      if !IsCurrent(s, c) || s.retainCount == 0 then done
      else done.(loadActions := s.loadActions + [(s.loads[c].epoch, s.disconnects)],
                 stream := Some(s.nextHandle), openStreams := s.openStreams + {s.nextHandle},
                 nextHandle := s.nextHandle + 1)
  }

  /** A load can fail before it has published and, when the stream cannot be opened, after. */
  function ReportFailure(s: Session, c: nat): Session {
    if c !in s.loads then s
    else
      var done := s.(loads := s.loads - {c});
      if !IsCurrent(s, c) then done
      else AfterDispatch(done.(loadActions := s.loadActions + [(s.loads[c].epoch, s.disconnects)]))
  }

  function ReceiveActivity(s: Session, event: Event): Session {
    if s.retainCount == 0 || event.threadId != s.threadId then s
    else
      var r := Receive(s, event);
      if event.kind.Terminal? then r.(catchUpsDue := r.catchUpsDue + 1) else r
  }

  function BeginCatchUp(s: Session): Session {
    if s.catchUpsDue == 0 then s
    else s.(
      aborted := s.aborted + HandlesOf(s.catchUpController),
      catchUpsDue := s.catchUpsDue - 1, catchUpController := Some(s.nextHandle), nextHandle := s.nextHandle + 1)
  }

  function EndCatchUp(s: Session, c: nat, events: seq<Event>): Session {
    var r := if c in s.aborted || s.retainCount == 0 then s else ReceiveAll(s, events);
    if r.catchUpController == Some(c) then r.(catchUpController := None) else r
  }

  function Step(s: Session, op: Op): Session {
    match op
    case Retain =>
      var r := s.(retainCount := s.retainCount + 1);
      if r.retainCount == 1 then Connect(r) else r
    case Release =>
      var r := s.(retainCount := if s.retainCount == 0 then 0 else s.retainCount - 1);
      if r.retainCount == 0 then Disconnect(r) else r
    case Retry =>
      var d := Disconnect(s);
      if d.retainCount > 0 then Connect(d) else d
    case Dispose => Disconnect(s.(retainCount := 0))
    case LoadReady(_, _) => PublishLoad(s, op.controller, op.ids)
    case LoadOpensStream(_) => OpenStreamOf(s, op.controller)
    case LoadFails(_) => ReportFailure(s, op.controller)
    case EventArrives(_) => Receive(s, op.event)
    case ActivityArrives(_) => ReceiveActivity(s, op.event)
    case CatchUpStarts => BeginCatchUp(s)
    case CatchUpArrives(_, _) => EndCatchUp(s, op.controller, op.events)
    case TimerFires => if s.timer then Flush(s) else s
  }

  function Steps(s: Session, ops: seq<Op>): Session {
    if ops == [] then s else Step(Steps(s, ops[..|ops| - 1]), ops[|ops| - 1])
  }

  // ------------------------------------------------------------ invariants

  /** At most one stream, and it is the one the session knows; nothing is open or loading
      unless somebody retains the session. */
  ghost predicate StreamsOk(s: Session) {
    && s.openStreams == (if s.stream.Some? then {s.stream.value} else {})
    && (s.retainCount == 0 ==> s.stream.None? && s.loadController.None?)
  }

  /** A load that is still current was started after the last disconnect, and no stream has
      been opened since. */
  ghost predicate LoadsOk(s: Session) {
    && (s.loadController.Some? ==> s.loadController.value < s.nextHandle && s.loadController.value !in s.aborted)
    && (s.catchUpController.Some? ==> s.catchUpController.value < s.nextHandle
                                      && s.catchUpController != s.loadController)
    && (forall c | c in s.aborted :: c < s.nextHandle)
    && (forall c | c in s.loads :: c < s.nextHandle && s.loads[c].generation <= s.loadGeneration)
    && (forall c | IsCurrent(s, c) :: s.stream.None? && s.loads[c].epoch == s.disconnects)
    && (forall p <- s.loadActions :: p.0 == p.1)
  }

  /** Every accepted event is either reduced or pending, in the order of acceptance, and a
      timer is set whenever something is pending. */
  ghost predicate EventsOk(s: Session) {
    s.reduced + s.pendingEvents == s.accepted && (s.pendingEvents != [] ==> s.timer)
  }

  ghost predicate SessionOk(s: Session) {
    StreamsOk(s) && LoadsOk(s) && EventsOk(s)
  }

  lemma {:induction false} DisconnectKeepsOk(s: Session)
    requires LoadsOk(s) && EventsOk(s) && s.openStreams == (if s.stream.Some? then {s.stream.value} else {})
    ensures SessionOk(Disconnect(s)) && Disconnect(s).stream.None? && Disconnect(s).loadController.None?
    ensures Disconnect(s).pendingEvents == []
  {
    assert s.reduced + s.pendingEvents + [] == s.reduced + s.pendingEvents;
  }

  lemma {:induction false} FlushKeepsOk(s: Session)
    requires StreamsOk(s) && LoadsOk(s) && s.reduced + s.pendingEvents == s.accepted
    ensures SessionOk(Flush(s)) && Flush(s).accepted == s.accepted && Flush(s).retainCount == s.retainCount
  {
    assert s.reduced + s.pendingEvents + [] == s.reduced + s.pendingEvents;
  }

  lemma {:induction false} QueueKeepsOk(s: Session, r: Session, queued: Session, event: Event)
    requires SessionOk(s) && r == Remember(s, event.id)
    requires queued == r.(pendingEvents := r.pendingEvents + [event], accepted := r.accepted + [event])
    ensures StreamsOk(queued) && LoadsOk(queued) && queued.reduced + queued.pendingEvents == queued.accepted
    ensures queued.retainCount == s.retainCount
  {
    Regroup3(s.reduced, s.pendingEvents, [event]);
  }

  lemma {:induction false} ReceiveKeepsOk(s: Session, event: Event)
    requires SessionOk(s)
    ensures SessionOk(Receive(s, event)) && Receive(s, event).retainCount == s.retainCount
  {
    if !(event.threadId != s.threadId || event.id in s.eventIds) {
      var r := Remember(s, event.id);
      var queued := r.(pendingEvents := r.pendingEvents + [event], accepted := r.accepted + [event]);
      QueueKeepsOk(s, r, queued, event);
      if event.kind.ToolCallStarted? { FlushKeepsOk(queued); }
    }
  }

  lemma {:induction false} ReceiveAllKeepsOk(s: Session, events: seq<Event>)
    requires SessionOk(s)
    ensures SessionOk(ReceiveAll(s, events)) && ReceiveAll(s, events).retainCount == s.retainCount
  {
    if events != [] {
      ReceiveAllKeepsOk(s, events[..|events| - 1]);
      ReceiveKeepsOk(ReceiveAll(s, events[..|events| - 1]), events[|events| - 1]);
    }
  }

  lemma {:induction false} ConnectKeepsOk(s: Session)
    requires SessionOk(s) || (LoadsOk(s) && EventsOk(s) && s.stream.None? && s.openStreams == {})
    requires s.retainCount > 0
    ensures SessionOk(Connect(s))
  {
  }

  lemma {:induction false} RememberAllFrames(s: Session, ids: seq<Id>)
    ensures RememberAll(s, ids) ==
            s.(eventIds := RememberAll(s, ids).eventIds, remembered := RememberAll(s, ids).remembered)
  {
    if ids != [] { RememberAllFrames(s, ids[..|ids| - 1]); }
  }

  lemma {:induction false} LoadReadyKeepsOk(s: Session, c: nat, ids: seq<Id>)
    requires SessionOk(s)
    ensures SessionOk(PublishLoad(s, c, ids))
  {
    RememberAllFrames(s, ids);
    if IsCurrent(s, c) { assert s.loads[c].epoch == s.disconnects; }
  }

  lemma {:induction false} LoadEndKeepsOk(s: Session, c: nat)
    requires SessionOk(s)
    ensures SessionOk(OpenStreamOf(s, c)) && SessionOk(ReportFailure(s, c))
  {
    if IsCurrent(s, c) { assert s.stream.None? && s.loads[c].epoch == s.disconnects; }
  }

  lemma {:induction false} ActivityKeepsOk(s: Session, event: Event)
    requires SessionOk(s)
    ensures SessionOk(ReceiveActivity(s, event))
  {
    ReceiveKeepsOk(s, event);
  }

  lemma {:induction false} CatchUpKeepsOk(s: Session, c: nat, events: seq<Event>)
    requires SessionOk(s)
    ensures SessionOk(BeginCatchUp(s)) && SessionOk(EndCatchUp(s, c, events))
  {
    CatchUpStartKeepsOk(s);
    CatchUpEndKeepsOk(s, c, events);
  }

  lemma {:induction false} CatchUpStartKeepsOk(s: Session)
    requires SessionOk(s)
    ensures SessionOk(BeginCatchUp(s))
  {
  }

  lemma {:induction false} CatchUpEndKeepsOk(s: Session, c: nat, events: seq<Event>)
    requires SessionOk(s)
    ensures SessionOk(EndCatchUp(s, c, events))
  {
    ReceiveAllKeepsOk(s, events);
  }

  lemma {:induction false} RetainKeepsOk(s: Session)
    requires SessionOk(s)
    ensures SessionOk(Step(s, Retain))
  {
    if s.retainCount == 0 { ConnectKeepsOk(s.(retainCount := 1)); }
  }

  /** Letting go of the session for good leaves no event behind. */
  lemma {:induction false} LettingGoDrains(s: Session, count: nat)
    requires SessionOk(s)
    ensures var d := Disconnect(s.(retainCount := count)); SessionOk(d) && d.reduced == s.accepted
  {
    DisconnectKeepsOk(s.(retainCount := count));
  }

  lemma {:induction false} ReleaseKeepsOk(s: Session)
    requires SessionOk(s)
    ensures SessionOk(Step(s, Release))
    ensures Step(s, Release).retainCount == 0 ==> Step(s, Release).reduced == s.accepted
  {
    LettingGoDrains(s, if s.retainCount == 0 then 0 else s.retainCount - 1);
  }

  lemma {:induction false} DisposeKeepsOk(s: Session)
    requires SessionOk(s)
    ensures SessionOk(Step(s, Dispose)) && Step(s, Dispose).reduced == s.accepted
  {
    LettingGoDrains(s, 0);
  }

  lemma {:induction false} RetryKeepsOk(s: Session)
    requires SessionOk(s)
    ensures SessionOk(Step(s, Retry))
  {
    DisconnectKeepsOk(s);
    if s.retainCount > 0 { ConnectKeepsOk(Disconnect(s)); }
  }

  lemma {:induction false} StepKeepsOk(s: Session, op: Op)
    requires SessionOk(s)
    ensures SessionOk(Step(s, op))
  {
    match op
    case Retain => RetainKeepsOk(s);
    case Release => ReleaseKeepsOk(s);
    case Retry => RetryKeepsOk(s);
    case Dispose => DisposeKeepsOk(s);
    case LoadReady(c, ids) => LoadReadyKeepsOk(s, c, ids);
    case LoadOpensStream(c) => LoadEndKeepsOk(s, c);
    case LoadFails(c) => LoadEndKeepsOk(s, c);
    case EventArrives(event) => ReceiveKeepsOk(s, event);
    case ActivityArrives(event) => ActivityKeepsOk(s, event);
    case CatchUpStarts => CatchUpKeepsOk(s, 0, []);
    case CatchUpArrives(c, events) => CatchUpKeepsOk(s, c, events);
    case TimerFires => FlushKeepsOk(s);
  }

  /** In every interleaving of the steps: at most one stream is open; none is open or loading
      when nothing retains the session; a load that a disconnect has superseded never
      publishes and never opens a stream; and every accepted event reaches the reducer
      exactly once, in the order of acceptance, or is pending under a running timer. */
  lemma {:induction false} EveryInterleavingIsOk(threadId: Id, ops: seq<Op>)
    ensures SessionOk(Steps(New(threadId), ops))
  {
    if ops != [] {
      EveryInterleavingIsOk(threadId, ops[..|ops| - 1]);
      StepKeepsOk(Steps(New(threadId), ops[..|ops| - 1]), ops[|ops| - 1]);
    }
  }

  // ------------------------------------------------------- remembered ids

  function IdsOf(events: seq<Event>): seq<Id> {
    seq(|events|, i requires 0 <= i < |events| => events[i].id)
  }

  /** The ids in use are the latest ones remembered; an id is remembered again only after
      it has been pushed out, that is, with `MAX_IDS` others in between; and events are
      accepted in the order in which their ids are remembered. */
  ghost predicate WindowOk(s: Session) {
    && Latest(s.eventIds, s.remembered)
    && Spaced(s.remembered)
    && Subsequence(IdsOf(s.accepted), s.remembered)
  }

  ghost predicate Latest(eventIds: seq<Id>, remembered: seq<Id>) {
    && |eventIds| == Min(|remembered|, MAX_IDS)
    && eventIds == remembered[|remembered| - |eventIds|..]
  }

  ghost predicate Spaced(remembered: seq<Id>) {
    forall i, j | 0 <= i < j < |remembered| && remembered[i] == remembered[j] :: j - i > MAX_IDS
  }

  lemma {:induction false} LatestAfter(eventIds: seq<Id>, remembered: seq<Id>, id: Id)
    requires Latest(eventIds, remembered) && Spaced(remembered) && id !in eventIds
    ensures var ids := eventIds + [id]; Latest(if |ids| <= MAX_IDS then ids else ids[1..], remembered + [id])
    ensures Spaced(remembered + [id])
  {
    var start := |remembered| - |eventIds|;
    forall i | start <= i < |remembered| ensures remembered[i] != id {
      assert remembered[i] == eventIds[i - start];
    }
  }

  lemma {:induction false} RememberKeepsWindow(s: Session, id: Id)
    requires WindowOk(s)
    ensures WindowOk(Remember(s, id))
  {
    if id !in s.eventIds {
      LatestAfter(s.eventIds, s.remembered, id);
      SubsequenceSnoc(IdsOf(s.accepted), s.remembered, id);
    }
  }

  lemma {:induction false} RememberAllKeepsWindow(s: Session, ids: seq<Id>)
    requires WindowOk(s)
    ensures WindowOk(RememberAll(s, ids))
  {
    if ids != [] {
      RememberAllKeepsWindow(s, ids[..|ids| - 1]);
      RememberKeepsWindow(RememberAll(s, ids[..|ids| - 1]), ids[|ids| - 1]);
    }
  }

  ghost predicate SameWindow(s: Session, t: Session) {
    s.eventIds == t.eventIds && s.remembered == t.remembered && s.accepted == t.accepted
  }

  lemma {:induction false} SameWindowIsOk(s: Session, t: Session)
    requires WindowOk(s) && SameWindow(s, t)
    ensures WindowOk(t)
  {
  }

  lemma {:induction false} ReceiveFrame(s: Session, event: Event)
    ensures var r := Receive(s, event);
            if event.threadId != s.threadId || event.id in s.eventIds then r == s
            else
              && r.eventIds == Remember(s, event.id).eventIds
              && r.remembered == s.remembered + [event.id]
              && r.accepted == s.accepted + [event]
  {
  }

  lemma {:induction false} ReceiveKeepsWindow(s: Session, event: Event)
    requires WindowOk(s)
    ensures WindowOk(Receive(s, event))
  {
    ReceiveFrame(s, event);
    if !(event.threadId != s.threadId || event.id in s.eventIds) {
      WindowGrows(s, event, Receive(s, event));
    }
  }

  lemma {:induction false} WindowGrows(s: Session, event: Event, r: Session)
    requires WindowOk(s) && event.id !in s.eventIds
    requires r.eventIds == Remember(s, event.id).eventIds
    requires r.remembered == s.remembered + [event.id] && r.accepted == s.accepted + [event]
    ensures WindowOk(r)
  {
    LatestAfter(s.eventIds, s.remembered, event.id);
    SubsequenceSnoc(IdsOf(s.accepted), s.remembered, event.id);
    IdsSnoc(s.accepted, event);
  }

  lemma {:induction false} IdsSnoc(events: seq<Event>, event: Event)
    ensures IdsOf(events + [event]) == IdsOf(events) + [event.id]
  {
  }

  lemma {:induction false} ReceiveAllKeepsWindow(s: Session, events: seq<Event>)
    requires WindowOk(s)
    ensures WindowOk(ReceiveAll(s, events))
  {
    if events != [] {
      ReceiveAllKeepsWindow(s, events[..|events| - 1]);
      ReceiveKeepsWindow(ReceiveAll(s, events[..|events| - 1]), events[|events| - 1]);
    }
  }

  /** A step changes the ids by what it receives or remembers and by nothing else. */
  lemma {:induction false} StepFrame(s: Session, op: Op)
    ensures if op.LoadReady? then SameWindow(s, Step(s, op)) || SameWindow(RememberAll(s, op.ids), Step(s, op))
            else if op.EventArrives? then Step(s, op) == Receive(s, op.event)
            else if op.ActivityArrives? then SameWindow(s, Step(s, op)) || SameWindow(Receive(s, op.event), Step(s, op))
            else if op.CatchUpArrives? then SameWindow(s, Step(s, op))
              || SameWindow(ReceiveAll(s, op.events), Step(s, op))
            else SameWindow(s, Step(s, op))
  {
  }

  lemma {:induction false} StepKeepsWindow(s: Session, op: Op)
    requires WindowOk(s)
    ensures WindowOk(Step(s, op))
  {
    StepFrame(s, op);
    var source :=
      if op.LoadReady? then RememberAll(s, op.ids)
      else if op.EventArrives? || op.ActivityArrives? then Receive(s, op.event)
      else if op.CatchUpArrives? then ReceiveAll(s, op.events)
      else s;
    if op.LoadReady? { RememberAllKeepsWindow(s, op.ids); }
    if op.EventArrives? || op.ActivityArrives? { ReceiveKeepsWindow(s, op.event); }
    if op.CatchUpArrives? { ReceiveAllKeepsWindow(s, op.events); }
    WindowCarries(s, source, Step(s, op));
  }

  lemma {:induction false} WindowCarries(s: Session, source: Session, t: Session)
    requires WindowOk(s) && WindowOk(source) && (SameWindow(s, t) || SameWindow(source, t))
    ensures WindowOk(t)
  {
    if SameWindow(s, t) { SameWindowIsOk(s, t); } else { SameWindowIsOk(source, t); }
  }

  // -------------------------------------------- what a session is at any time

  ghost predicate SessionValid(s: Session) {
    SessionOk(s) && WindowOk(s)
  }

  /** The stream known is the one that is open; nothing is open or loading unless somebody
      retains the session; and what was accepted is what was reduced and what is pending. */
  ghost predicate Orderly(s: Session) {
    && s.openStreams == (if s.stream.Some? then {s.stream.value} else {})
    && (s.retainCount == 0 ==> s.stream.None? && s.openStreams == {} && s.loadController.None?)
    && s.reduced + s.pendingEvents == s.accepted
  }

  /** Nothing is open or loading, and every accepted event has been handed on. */
  ghost predicate Quiet(s: Session) {
    s.stream.None? && s.openStreams == {} && s.loadController.None? && s.pendingEvents == [] && s.reduced == s.accepted
  }

  lemma {:induction false} StepKeepsValid(s: Session, op: Op)
    requires SessionValid(s)
    ensures SessionValid(Step(s, op)) && Orderly(Step(s, op))
  {
    StepKeepsOk(s, op);
    StepKeepsWindow(s, op);
  }

  lemma {:induction false} LastReleaseIsQuiet(s: Session)
    requires SessionValid(s)
    ensures Step(s, Release).retainCount == 0 ==> Quiet(Step(s, Release))
    ensures Quiet(Step(s, Dispose))
  {
    ReleaseKeepsOk(s);
    DisposeKeepsOk(s);
  }

  lemma {:induction false} NewIsValid(threadId: Id)
    ensures SessionValid(New(threadId))
  {
    assert IdsOf([]) == [];
  }

  lemma {:induction false} EveryInterleavingKeepsTheWindow(threadId: Id, ops: seq<Op>)
    ensures WindowOk(Steps(New(threadId), ops))
  {
    if ops == [] {
      assert IdsOf([]) == [];
    } else {
      EveryInterleavingKeepsTheWindow(threadId, ops[..|ops| - 1]);
      StepKeepsWindow(Steps(New(threadId), ops[..|ops| - 1]), ops[|ops| - 1]);
    }
  }

  lemma {:induction false} PositionsInOrder<T>(c: seq<T>, s: seq<T>, i: nat, j: nat) returns (p: nat, q: nat)
    requires Subsequence(c, s) && i < j < |c|
    ensures p < q < |s| && s[p] == c[i] && s[q] == c[j]
    decreases |s|
  {
    if c[0] == s[0] && Subsequence(c[1..], s[1..]) {
      if i > 0 {
        p, q := PositionsInOrder(c[1..], s[1..], i - 1, j - 1);
        p, q := p + 1, q + 1;
      } else {
        assert c[1..][j - 1] in c[1..];
        SubsequenceMember(c[1..], s[1..], c[j]);
        q :| 0 <= q < |s[1..]| && s[1..][q] == c[j];
        p, q := 0, q + 1;
      }
    } else {
      p, q := PositionsInOrder(c, s[1..], i, j);
      p, q := p + 1, q + 1;
    }
  }

  /** However long the run: between two acceptances of an id more than `MAX_IDS` ids were
      remembered, so that the first had left the memory. */
  lemma {:induction false} RepeatsAreFarApart(threadId: Id, ops: seq<Op>, i: nat, j: nat) returns (p: nat, q: nat)
    requires var accepted := Steps(New(threadId), ops).accepted;
             i < j < |accepted| && accepted[i].id == accepted[j].id
    ensures var s := Steps(New(threadId), ops);
            p < q < |s.remembered| && q - p > MAX_IDS
            && s.remembered[p] == s.remembered[q] == s.accepted[i].id
  {
    var s := Steps(New(threadId), ops);
    EveryInterleavingKeepsTheWindow(threadId, ops);
    p, q := PositionsInOrder(IdsOf(s.accepted), s.remembered, i, j);
  }

  /** No event id is accepted twice in a run that remembers no more than `MAX_IDS` + 1 ids,
      however often and on however many ways events are delivered. */
  lemma {:induction false} NoEventIsAcceptedTwice(threadId: Id, ops: seq<Op>)
    requires |Steps(New(threadId), ops).remembered| <= MAX_IDS + 1
    ensures Distinct(IdsOf(Steps(New(threadId), ops).accepted))
  {
    var s := Steps(New(threadId), ops);
    EveryInterleavingKeepsTheWindow(threadId, ops);
    SubsequenceDistinct(IdsOf(s.accepted), s.remembered);
  }
}
