/** The store object: records, the index of visible statuses derived from them, and batched
    notifications. Subscribers are represented by what one of each kind holds: `mirror` is
    the copy of a change subscriber that applies every notice it gets, and `seen` is the
    snapshot that a subscriber of the visible statuses took at its last notice. Listeners
    do not call back into the store. */
module ThreadActivityStore {
  import opened Prelude
  import opened StableSort
  import opened ThreadRun
  import opened ActivityStore

  datatype Change = Change(threadId: Id, record: Option<Record>)

  function VisibleOf(records: map<Id, Slot>): map<Id, Phase> {
    map t | t in records && VisibleStatus(records[t].record).Some? :: VisibleStatus(records[t].record).value
  }

  function Plain(records: map<Id, Slot>): map<Id, Record> {
    map t | t in records :: records[t].record
  }

  /** The records when only the threads in `unvisited` are still to be looked at. */
  function Retained(records: map<Id, Slot>, unvisited: set<Id>, known: set<Id>): map<Id, Slot> {
    map t | t in records && (t in unvisited || t in known) :: records[t]
  }

  lemma {:induction false} RetainedStep(records: map<Id, Slot>, unvisited: set<Id>, known: set<Id>, t: Id)
    requires t in records && t !in unvisited
    ensures Retained(records, unvisited, known) ==
            if t in known then Retained(records, unvisited + {t}, known)
              else Retained(records, unvisited + {t}, known) - {t}
  {
  }

  function ApplyChange(copy: map<Id, Record>, change: Change): map<Id, Record> {
    if change.record.Some? then copy[change.threadId := change.record.value] else copy - {change.threadId}
  }

  function ApplyChanges(copy: map<Id, Record>, changes: seq<Change>): map<Id, Record> {
    if changes == [] then copy
    else ApplyChange(ApplyChanges(copy, changes[..|changes| - 1]), changes[|changes| - 1])
  }

  /** `pendingChanges.set(threadId, record)`: a known key keeps its place. */
  function SetPending(changes: seq<Change>, change: Change): seq<Change> {
    if changes == [] then [change]
    else if changes[0].threadId == change.threadId then [change] + changes[1..]
    else [changes[0]] + SetPending(changes[1..], change)
  }

  ghost predicate OnePerThread(changes: seq<Change>) {
    forall i, j | 0 <= i < j < |changes| :: changes[i].threadId != changes[j].threadId
  }

  lemma {:induction false} ChangesCommute(copy: map<Id, Record>, a: Change, b: Change)
    requires a.threadId != b.threadId
    ensures ApplyChange(ApplyChange(copy, a), b) == ApplyChange(ApplyChange(copy, b), a)
  {
  }

  lemma {:induction false} ApplyChangesFront(copy: map<Id, Record>, changes: seq<Change>)
    requires changes != []
    ensures ApplyChanges(copy, changes) == ApplyChanges(ApplyChange(copy, changes[0]), changes[1..])
  {
    var last := |changes| - 1;
    if last > 0 {
      ApplyChangesFront(copy, changes[..last]);
      assert changes[..last][1..] == changes[1..][..last - 1];
    } else {
      assert changes[..0] == [] && changes[1..] == [];
    }
  }

  lemma {:induction false} SetPendingThreads(changes: seq<Change>, change: Change)
    requires OnePerThread(changes)
    ensures OnePerThread(SetPending(changes, change))
    ensures forall c <- SetPending(changes, change) ::
              c == change || (c in changes && c.threadId != change.threadId)
  {
    if changes != [] {
      var rest := SetPending(changes[1..], change);
      SetPendingThreads(changes[1..], change);
      if changes[0].threadId == change.threadId {
        forall i | 0 < i < |changes| ensures changes[i].threadId != change.threadId {
          assert changes[0].threadId != changes[i].threadId;
        }
      } else {
        forall i | 0 <= i < |rest| ensures rest[i].threadId != changes[0].threadId {
          assert rest[i] in rest;
          if rest[i] != change {
            var j :| 0 <= j < |changes[1..]| && changes[1..][j] == rest[i];
            assert changes[0].threadId != changes[j + 1].threadId;
          }
        }
      }
    }
  }

  lemma {:induction false} ChangeMovesBack(copy: map<Id, Record>, changes: seq<Change>, change: Change)
    requires forall c <- changes :: c.threadId != change.threadId
    ensures ApplyChanges(ApplyChange(copy, change), changes) == ApplyChange(ApplyChanges(copy, changes), change)
  {
    if changes != [] {
      var last := |changes| - 1;
      assert changes[last] in changes;
      ChangeMovesBack(copy, changes[..last], change);
      ChangesCommute(ApplyChanges(copy, changes[..last]), change, changes[last]);
    }
  }

  /** Overwriting a pending notice has the effect of sending both. */
  lemma {:induction false} SetPendingApplies(copy: map<Id, Record>, changes: seq<Change>, change: Change)
    requires OnePerThread(changes)
    ensures ApplyChanges(copy, SetPending(changes, change)) == ApplyChange(ApplyChanges(copy, changes), change)
    decreases |changes|
  {
    if changes == [] {
      assert [change][..0] == [];
    } else {
      ApplyChangesFront(copy, changes);
      ApplyChangesFront(copy, SetPending(changes, change));
      if changes[0].threadId == change.threadId {
        forall c | c in changes[1..] ensures c.threadId != change.threadId {
          var i :| 0 <= i < |changes[1..]| && changes[1..][i] == c;
          assert changes[0].threadId != changes[i + 1].threadId;
        }
        ChangeMovesBack(copy, changes[1..], change);
        ChangeMovesBack(ApplyChange(copy, changes[0]), changes[1..], change);
        assert ApplyChange(ApplyChange(copy, changes[0]), change) == ApplyChange(copy, change);
        assert SetPending(changes, change)[1..] == changes[1..];
      } else {
        SetPendingApplies(ApplyChange(copy, changes[0]), changes[1..], change);
        assert SetPending(changes, change)[1..] == SetPending(changes[1..], change);
      }
    }
  }

  lemma {:induction false} VisibleAfterPut(records: map<Id, Slot>, t: Id, slot: Slot)
    ensures VisibleOf(records[t := slot]) ==
            if VisibleStatus(slot.record).Some? then VisibleOf(records)[t := VisibleStatus(slot.record).value]
            else VisibleOf(records) - {t}
    ensures t in VisibleOf(records) ==>
              VisibleOf(records)[t := VisibleOf(records)[t]] == VisibleOf(records)
    ensures t !in VisibleOf(records) ==> VisibleOf(records) - {t} == VisibleOf(records)
    ensures Plain(records[t := slot]) == Plain(records)[t := slot.record]
  {
  }

  lemma {:induction false} VisibleAfterDrop(records: map<Id, Slot>, t: Id)
    ensures VisibleOf(records - {t}) == VisibleOf(records) - {t}
    ensures t !in VisibleOf(records) ==> VisibleOf(records) - {t} == VisibleOf(records)
    ensures Plain(records - {t}) == Plain(records) - {t}
  {
  }

  class Activity {
    var records: map<Id, Slot>
    var visibleStatuses: map<Id, Phase>
    var readAt: map<Id, Time>
    var nextIdentity: nat
    var batchDepth: nat
    var pendingChanges: seq<Change>
    var visibleSnapshotChanged: bool
    ghost var mirror: map<Id, Record>
    ghost var seen: map<Id, Phase>

    constructor (readAt: map<Id, Time>)
      ensures Valid() && batchDepth == 0 && Value() == Fresh.(readAt := readAt)
    {
      records, visibleStatuses, nextIdentity := map[], map[], 0;
      this.readAt := readAt;
      batchDepth, pendingChanges, visibleSnapshotChanged := 0, [], false;
      mirror, seen := map[], map[];
    }

    function Value(): Store
      reads this
    {
      Store(records, readAt, nextIdentity)
    }

    /** What a change subscriber holds once the pending notices have gone out. */
    ghost function Held(): map<Id, Record>
      reads this
    {
      ApplyChanges(mirror, pendingChanges)
    }

    ghost predicate Queued()
      reads this
    {
      OnePerThread(pendingChanges) && (batchDepth == 0 ==> pendingChanges == [])
    }

    ghost predicate Valid()
      reads this
    {
      && (forall t | t in records :: records[t].record.threadId == t)
      && visibleStatuses == VisibleOf(records)
      && Queued()
      && Held() == Plain(records)
      && (batchDepth == 0 ==> !visibleSnapshotChanged)
      && (!visibleSnapshotChanged ==> seen == visibleStatuses)
    }

    /** Outside of a batch both subscribers hold exactly what the store holds. */
    ghost predicate InSync()
      reads this
    {
      && mirror == Plain(records)
      && seen == visibleStatuses == VisibleOf(records)
    }

    method EmitRecordChange(threadId: Id, record: Option<Record>)
      requires Queued()
      modifies `pendingChanges, `mirror
      ensures Queued() && Held() == ApplyChange(old(Held()), Change(threadId, record))
    {
      if batchDepth > 0 {
        SetPendingThreads(pendingChanges, Change(threadId, record));
        SetPendingApplies(mirror, pendingChanges, Change(threadId, record));
        pendingChanges := SetPending(pendingChanges, Change(threadId, record));
        return;
      }
      mirror := ApplyChange(mirror, Change(threadId, record));
    }

    method EmitVisibleChange()
      modifies `visibleSnapshotChanged, `seen
      ensures if batchDepth > 0 then visibleSnapshotChanged && seen == old(seen)
              else visibleSnapshotChanged == old(visibleSnapshotChanged) && seen == visibleStatuses
    {
      if batchDepth > 0 {
        visibleSnapshotChanged := true;
        return;
      }
      seen := visibleStatuses;
    }

    method FlushPendingNotifications()
      requires OnePerThread(pendingChanges) && batchDepth == 0
      requires !visibleSnapshotChanged ==> seen == visibleStatuses
      modifies `pendingChanges, `mirror, `visibleSnapshotChanged, `seen
      ensures pendingChanges == [] && mirror == old(Held())
      ensures !visibleSnapshotChanged && seen == visibleStatuses
    {
      var index := 0;
      assert pendingChanges[0..] == pendingChanges;
      while index < |pendingChanges|
        invariant 0 <= index <= |pendingChanges| && pendingChanges == old(pendingChanges)
        invariant ApplyChanges(mirror, pendingChanges[index..]) == old(Held())
        invariant seen == old(seen) && visibleSnapshotChanged == old(visibleSnapshotChanged)
      {
        ApplyChangesFront(mirror, pendingChanges[index..]);
        assert pendingChanges[index..][1..] == pendingChanges[index + 1..];
        mirror := ApplyChange(mirror, pendingChanges[index]);
        index := index + 1;
      }
      assert pendingChanges[index..] == [];
      pendingChanges := [];
      if visibleSnapshotChanged {
        seen := visibleStatuses;
        visibleSnapshotChanged := false;
      }
    }

    /** The part of `setRecord` that changes the store itself. */
    method StoreRecord(next: Record) returns (visibleChanged: bool)
      requires visibleStatuses == VisibleOf(records)
      modifies `records, `nextIdentity, `visibleStatuses
      ensures records == old(records)[next.threadId := Slot(next, old(nextIdentity))]
      ensures nextIdentity == old(nextIdentity) + 1
      ensures visibleStatuses == VisibleOf(records) && Plain(records) == Plain(old(records))[next.threadId := next]
      ensures !visibleChanged ==> visibleStatuses == old(visibleStatuses)
    {
      var previous := if next.threadId in visibleStatuses then Some(visibleStatuses[next.threadId]) else None;
      var status := VisibleStatus(next);
      VisibleAfterPut(records, next.threadId, Slot(next, nextIdentity));
      records := records[next.threadId := Slot(next, nextIdentity)];
      nextIdentity := nextIdentity + 1;
      visibleChanged := previous != status;
      if visibleChanged {
        visibleStatuses := if status.Some? then visibleStatuses[next.threadId := status.value]
                           else visibleStatuses - {next.threadId};
      }
    }

    method SetRecord(next: Record)
      requires Valid()
      modifies this
      ensures Valid() && batchDepth == old(batchDepth) && Value() == old(Value()).Put(next)
    {
      if next.threadId in records && records[next.threadId].record == next { return; }
      var visibleChanged := StoreRecord(next);
      EmitRecordChange(next.threadId, Some(next));
      if visibleChanged { EmitVisibleChange(); }
    }

    method DeleteRecord(threadId: Id)
      requires Valid()
      modifies this
      ensures Valid() && batchDepth == old(batchDepth) && Value() == old(Value()).Drop(threadId)
    {
      if threadId !in records { return; }
      VisibleAfterDrop(records, threadId);
      records := records - {threadId};
      var wasVisible := threadId in visibleStatuses;
      if wasVisible {
        visibleStatuses := visibleStatuses - {threadId};
        EmitVisibleChange();
      }
      assert visibleStatuses == VisibleOf(records);
      EmitRecordChange(threadId, None);
      assert Held() == Plain(records);
    }

    method BeginBatch()
      requires Valid()
      modifies `batchDepth
      ensures Valid() && batchDepth == old(batchDepth) + 1
    {
      batchDepth := batchDepth + 1;
    }

    method EndBatch()
      requires Valid() && batchDepth > 0
      modifies `batchDepth, `pendingChanges, `mirror, `visibleSnapshotChanged, `seen
      ensures Valid() && batchDepth == old(batchDepth) - 1 && (batchDepth == 0 ==> InSync())
    {
      batchDepth := batchDepth - 1;
      if batchDepth == 0 { FlushPendingNotifications(); }
    }

    // ------------------------------------------------------ public operations

    method BeginSend(threadId: Id, now: Time)
      requires Valid() && batchDepth == 0
      modifies this
      ensures Valid() && batchDepth == 0 && InSync() && Value() == Step(old(Value()), OpBeginSend(threadId, now))
    {
      var current := Value().Find(threadId);
      if current.Some? && Live(current.value.phase) {
        SetRecord(current.value.(run := BeginThreadSend(current.value.run)));
        return;
      }
      SetRecord(Record(threadId, None, Processing,
        if current.Some? then current.value.lastEventSeq else None, now, false, true,
        BeginThreadSend(if current.Some? then current.value.run else Idle)));
    }

    method ConfirmSend(threadId: Id, feedback: Feedback)
      requires Valid() && batchDepth == 0
      modifies this
      ensures Valid() && batchDepth == 0 && InSync() && Value() == Step(old(Value()), OpConfirmSend(threadId, feedback))
    {
      var found := Value().Find(threadId);
      if found.None? {
        SetRecord(Record(threadId, feedback.turnId, Processing, None, feedback.startedAt, false,
          feedback.turnId.None?, ConfirmThreadSend(Idle, feedback)));
        return;
      }
      var current := found.value;
      SetRecord(current.(
        turnId := feedback.turnId.OrElse(current.turnId),
        phase := if Live(current.phase) then current.phase else Processing,
        unread := false,
        optimistic := if feedback.turnId.Some? then false else current.optimistic,
        run := ConfirmThreadSend(current.run, feedback)));
    }

    method FailSend(threadId: Id)
      requires Valid() && batchDepth == 0
      modifies this
      ensures Valid() && batchDepth == 0 && InSync() && Value() == Step(old(Value()), OpFailSend(threadId))
    {
      if threadId !in records { return; }
      var current := records[threadId].record;
      var run := FailThreadSend(current.run);
      if current.optimistic && run.activeTurnId.None? {
        DeleteRecord(threadId);
        return;
      }
      SetRecord(current.(run := run));
    }

    method RequestCancellation(threadId: Id)
      requires Valid() && batchDepth == 0
      modifies this
      ensures Valid() && batchDepth == 0 && InSync() && Value() == Step(old(Value()), OpRequestCancellation(threadId))
    {
      if threadId !in records { return; }
      var current := records[threadId].record;
      SetRecord(current.(run := RequestThreadCancellation(current.run)));
    }

    method ReconcileCancellation(threadId: Id, activeTurnId: Option<Id>, statusResolved: bool)
      requires Valid() && batchDepth == 0
      modifies this
      ensures Valid() && batchDepth == 0 && InSync()
      ensures Value() == Step(old(Value()), OpReconcileCancellation(threadId, activeTurnId, statusResolved))
    {
      if threadId !in records { return; }
      var current := records[threadId].record;
      SetRecord(current.(run := ReconcileThreadCancellation(current.run, activeTurnId, statusResolved)));
    }

    method FailCancellation(threadId: Id)
      requires Valid() && batchDepth == 0
      modifies this
      ensures Valid() && batchDepth == 0 && InSync() && Value() == Step(old(Value()), OpFailCancellation(threadId))
    {
      if threadId !in records { return; }
      var current := records[threadId].record;
      SetRecord(current.(run := FailThreadCancellation(current.run)));
    }

    method MarkRead(threadId: Id, now: Time)
      requires Valid() && batchDepth == 0
      modifies this
      ensures Valid() && batchDepth == 0 && InSync() && Value() == Step(old(Value()), OpMarkRead(threadId, now))
    {
      readAt := readAt[threadId := now];
      if threadId !in records || !records[threadId].record.unread { return; }
      SetRecord(records[threadId].record.(unread := false));
    }

    /** `applyEvent`, also inside a batch. */
    method ApplyEvent(event: Event)
      requires Valid()
      modifies this
      ensures Valid() && batchDepth == old(batchDepth)
      ensures Value() == Step(old(Value()), OpApplyEvent(event))
      ensures batchDepth == 0 ==> InSync()
    {
      var projected := EventPhase(event);
      if projected.None? { return; }
      var phase := projected.value;
      var current := Value().Find(event.threadId);
      if IsStale(current, event) { return; }
      if current.Some? && current.value.optimistic && event.createdAt < current.value.updatedAt { return; }
      if current.Some? && Live(current.value.phase) {
        if current.value.turnId.Some? && event.turnId != current.value.turnId && !event.payload.TurnStarted?
           && !(phase == Broken && event.turnId.None?) { return; }
        if current.value.optimistic && !Live(phase) && event.turnId != current.value.turnId { return; }
        if current.value.turnId.None? && event.turnId.None? && phase != Broken { return; }
      }
      SetRecord(Record(event.threadId,
        event.turnId.OrElse(if current.Some? then current.value.turnId else None), phase,
        PersistedSeq(event).OrElse(if current.Some? then current.value.lastEventSeq else None),
        event.createdAt,
        if Live(phase) then false else Unread(readAt, event.threadId, event.createdAt),
        false,
        ReduceThreadRunEvent(if current.Some? then current.value.run else Idle, event)));
    }

    method ApplyEvents(events: seq<Event>)
      requires Valid() && batchDepth == 0
      modifies this
      ensures Valid() && batchDepth == 0 && InSync() && Value() == Step(old(Value()), OpApplyEvents(events))
    {
      BeginBatch();
      var ordered := Sort(events, (e: Event) => e.seq');
      for i := 0 to |ordered|
        invariant Valid() && batchDepth == 1
        invariant Value() == Deliver(old(Value()), ordered[..i])
      {
        assert ordered[..i + 1][..i] == ordered[..i];
        ApplyEvent(ordered[i]);
      }
      assert ordered[..|ordered|] == ordered;
      EndBatch();
    }

    /** `reconcileTurnStatus`, also inside a batch. */
    method ReconcileTurnStatus(status: TurnStatus)
      requires Valid()
      modifies this
      ensures Valid() && batchDepth == old(batchDepth)
      ensures Value() == ActivityStore.ReconcileTurnStatus(old(Value()), status)
      ensures batchDepth == 0 ==> InSync()
    {
      var current := Value().Find(status.threadId);
      var run := ReconcileThreadRunStatus(if current.Some? then current.value.run else Idle, status);
      var phase := StatusPhase(status);
      var incomingIsLive := Live(phase);
      if current.Some? {
        var c := current.value;
        if !c.optimistic && c.turnId == Some(status.turnId) && (!Live(c.phase) || incomingIsLive)
           && !(status.updatedAt > c.updatedAt) { return; }
        if Live(c.phase) {
          if c.turnId.Some? && c.turnId != Some(status.turnId)
             && (!incomingIsLive || !(status.startedAt > c.updatedAt)) { return; }
          if c.optimistic && c.turnId != Some(status.turnId)
             && (!incomingIsLive || status.startedAt < c.updatedAt) { return; }
        } else if c.turnId != Some(status.turnId) && !(status.updatedAt > c.updatedAt) {
          return;
        }
      }
      SetRecord(Record(status.threadId, Some(status.turnId), phase,
        if current.Some? then current.value.lastEventSeq else None, status.updatedAt,
        if incomingIsLive then false else Unread(readAt, status.threadId, status.updatedAt),
        false, run));
    }

    method ReconcileTurnStatuses(statuses: seq<TurnStatus>)
      requires Valid() && batchDepth == 0
      modifies this
      ensures Valid() && batchDepth == 0 && InSync()
      ensures Value() == Step(old(Value()), OpReconcileTurnStatuses(statuses))
    {
      BeginBatch();
      ReconcileEach(statuses);
      EndBatch();
    }

    method ReconcileEach(statuses: seq<TurnStatus>)
      requires Valid()
      modifies this
      ensures Valid() && batchDepth == old(batchDepth)
      ensures Value() == ActivityStore.ReconcileTurnStatuses(old(Value()), statuses)
    {
      for i := 0 to |statuses|
        invariant Valid() && batchDepth == old(batchDepth)
        invariant Value() == ActivityStore.ReconcileTurnStatuses(old(Value()), statuses[..i])
      {
        assert statuses[..i + 1][..i] == statuses[..i];
        ReconcileTurnStatus(statuses[i]);
      }
      assert statuses[..|statuses|] == statuses;
    }

    method CaptureLiveReconciliationBaseline() returns (baseline: map<Id, Slot>)
      ensures baseline == Baseline(Value())
    {
      baseline := map t | t in records && Live(records[t].record.phase) :: records[t];
    }

    /** The loop over the live records that the snapshot does not name. */
    method DropGoneThreads(liveThreadIds: set<Id>, baseline: Option<map<Id, Slot>>)
      requires Valid()
      modifies this
      ensures Valid() && batchDepth == old(batchDepth)
      ensures Value() == old(Value()).(records := old(records) - GoneThreads(old(Value()), liveThreadIds, baseline))
    {
      ghost var before := records;
      var unvisited := records.Keys;
      ghost var gone: set<Id> := {};
      while unvisited != {}
        invariant Valid() && batchDepth == old(batchDepth) && readAt == old(readAt) && nextIdentity == old(nextIdentity)
        invariant unvisited <= before.Keys && gone !! unvisited && records == before - gone
        invariant gone == set t | t in before.Keys - unvisited && IsGone(before[t], t, liveThreadIds, baseline)
        decreases unvisited
      {
        var threadId :| threadId in unvisited;
        unvisited := unvisited - {threadId};
        var slot := records[threadId];
        if Live(slot.record.phase) && !slot.record.run.sending && threadId !in liveThreadIds
           && (baseline.None?
               || (threadId in baseline.value && baseline.value[threadId].identity == slot.identity)) {
          gone := gone + {threadId};
          DeleteRecord(threadId);
          assert records == before - gone;
        }
      }
      assert gone == GoneThreads(old(Value()), liveThreadIds, baseline);
    }

    method ReconcileLiveTurnStatuses(statuses: seq<TurnStatus>, baseline: Option<map<Id, Slot>>)
      requires Valid() && batchDepth == 0
      modifies this
      ensures Valid() && batchDepth == 0 && InSync()
      ensures Value() == Step(old(Value()), OpReconcileLive(statuses, baseline))
    {
      BeginBatch();
      DropAndReconcile(statuses, baseline);
      EndBatch();
    }

    method DropAndReconcile(statuses: seq<TurnStatus>, baseline: Option<map<Id, Slot>>)
      requires Valid()
      modifies this
      ensures Valid() && batchDepth == old(batchDepth)
      ensures Value() == ReconcileLive(old(Value()), statuses, baseline)
    {
      DropGoneThreads(ThreadsOf(statuses), baseline);
      ReconcileEach(statuses);
    }

    method RetainKnownThreads(threadIds: set<Id>)
      requires Valid() && batchDepth == 0
      modifies this
      ensures Valid() && batchDepth == 0 && InSync() && Value() == Step(old(Value()), OpRetainKnown(threadIds))
    {
      var unvisited := records.Keys;
      while unvisited != {}
        invariant Valid() && batchDepth == 0 && unvisited <= records.Keys
        invariant records == Retained(old(records), unvisited, threadIds)
        invariant Value() == old(Value()).(records := records)
        decreases unvisited
      {
        var threadId :| threadId in unvisited;
        assert unvisited == unvisited - {threadId} + {threadId};
        unvisited := unvisited - {threadId};
        if threadId !in threadIds { DeleteRecord(threadId); }
        RetainedStep(old(records), unvisited, threadIds, threadId);
      }
    }

    method Reset()
      requires Valid() && batchDepth == 0
      modifies this
      ensures Valid() && batchDepth == 0 && InSync() && Value() == Step(old(Value()), OpReset)
    {
      if |records| == 0 { return; }
      var threadIds := records.Keys;
      records := map[];
      visibleStatuses := map[];
      seen := visibleStatuses;
      NotifyRemoved(threadIds);
    }

    /** Tells the subscribers of changes that the records are gone. */
    method NotifyRemoved(threadIds: set<Id>)
      requires mirror.Keys == threadIds
      modifies `mirror
      ensures mirror == map[]
    {
      var left := threadIds;
      while left != {}
        invariant mirror.Keys == left
        decreases left
      {
        var threadId :| threadId in left;
        left := left - {threadId};
        mirror := ApplyChange(mirror, Change(threadId, None));
      }
    }
  }
}
