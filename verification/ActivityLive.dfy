/** Reconciling the live threads with a snapshot of the server that was requested earlier:
    whatever happened in between is kept. */
module ActivityLive {
  import opened Prelude
  import opened StableSort
  import opened ThreadRun
  import opened ActivityStore

  /** Every slot of `after` is a slot of `before` or a newer object. */
  ghost predicate Newer(before: Store, after: Store) {
    && before.nextIdentity <= after.nextIdentity
    && forall t | t in after.records ::
         (t in before.records && after.records[t] == before.records[t])
         || after.records[t].identity >= before.nextIdentity
  }

  ghost predicate Numbered(s: Store) {
    forall t | t in s.records :: s.records[t].identity < s.nextIdentity
  }

  lemma {:induction false} NewerTrans(a: Store, b: Store, c: Store)
    requires Newer(a, b) && Newer(b, c)
    ensures Newer(a, c)
  {
    forall t | t in c.records
      ensures (t in a.records && c.records[t] == a.records[t]) || c.records[t].identity >= a.nextIdentity
    {
      if t in b.records && c.records[t] == b.records[t] {
        assert (t in a.records && b.records[t] == a.records[t]) || b.records[t].identity >= a.nextIdentity;
      }
    }
  }

  lemma {:induction false} DeliverIsNewer(s: Store, events: seq<Event>)
    requires Numbered(s)
    ensures Newer(s, Deliver(s, events)) && Numbered(Deliver(s, events))
  {
    if events != [] {
      var before := Deliver(s, events[..|events| - 1]);
      DeliverIsNewer(s, events[..|events| - 1]);
      NewerTrans(s, before, ApplyEvent(before, events[|events| - 1]));
    }
  }

  lemma {:induction false} StatusesAreNewer(s: Store, statuses: seq<TurnStatus>)
    requires Numbered(s)
    ensures Newer(s, ReconcileTurnStatuses(s, statuses)) && Numbered(ReconcileTurnStatuses(s, statuses))
  {
    if statuses != [] {
      var before := ReconcileTurnStatuses(s, statuses[..|statuses| - 1]);
      StatusesAreNewer(s, statuses[..|statuses| - 1]);
      NewerTrans(s, before, ReconcileTurnStatus(before, statuses[|statuses| - 1]));
    }
  }

  lemma {:induction false} StepIsNewer(s: Store, op: Op)
    requires Numbered(s)
    ensures Newer(s, Step(s, op)) && Numbered(Step(s, op))
  {
    match op
    case OpApplyEvents(events) => DeliverIsNewer(s, Sort(events, (e: Event) => e.seq'));
    case OpReconcileTurnStatuses(statuses) => StatusesAreNewer(s, statuses);
    case OpReconcileLive(statuses, baseline) =>
      var rest := s.(records := s.records - GoneThreads(s, ThreadsOf(statuses), baseline));
      StatusesAreNewer(rest, statuses);
      NewerTrans(s, rest, ReconcileTurnStatuses(rest, statuses));
    case _ =>
  }

  lemma {:induction false} StepsAreNewer(s: Store, ops: seq<Op>)
    requires Numbered(s)
    ensures Newer(s, Steps(s, ops)) && Numbered(Steps(s, ops))
  {
    if ops != [] {
      var before := Steps(s, ops[..|ops| - 1]);
      StepsAreNewer(s, ops[..|ops| - 1]);
      StepIsNewer(before, ops[|ops| - 1]);
      NewerTrans(s, before, Step(before, ops[|ops| - 1]));
    }
  }

  lemma {:induction false} StatusesTouchOnlyTheirThreads(s: Store, statuses: seq<TurnStatus>, t: Id)
    ensures t !in ThreadsOf(statuses) ==>
              (t in ReconcileTurnStatuses(s, statuses).records <==> t in s.records)
              && (t in s.records ==> ReconcileTurnStatuses(s, statuses).records[t] == s.records[t])
    ensures t in s.records ==> t in ReconcileTurnStatuses(s, statuses).records
  {
    if statuses != [] {
      var init, last := statuses[..|statuses| - 1], statuses[|statuses| - 1];
      StatusesTouchOnlyTheirThreads(s, init, t);
      assert last in statuses && last.threadId in ThreadsOf(statuses);
      assert forall status <- init :: status in statuses;
      assert t in ThreadsOf(init) ==> t in ThreadsOf(statuses);
    }
  }

  /** Take any run of operations between the capture of the baseline and the arrival of the
      snapshot. A thread that the snapshot does not name loses its record if it was live and
      not sending and had not been touched since the capture, and keeps it, the very same
      object, in every other case; a thread that the snapshot names keeps a record. */
  lemma {:induction false} SnapshotRespectsNews(captured: Store, ops: seq<Op>, statuses: seq<TurnStatus>, t: Id)
    requires Numbered(captured)
    ensures var s := Steps(captured, ops);
            var after := ReconcileLive(s, statuses, Some(Baseline(captured)));
            t in s.records ==>
              if t in ThreadsOf(statuses) then t in after.records
              else
                var untouched := t in captured.records && s.records[t] == captured.records[t];
                var gone := Live(s.records[t].record.phase) && !s.records[t].record.run.sending && untouched;
                && (t in after.records <==> !gone)
                && (!gone ==> after.records[t] == s.records[t])
                && (s.records[t].identity >= captured.nextIdentity ==> !gone)
  {
    var s := Steps(captured, ops);
    var baseline := Baseline(captured);
    StepsAreNewer(captured, ops);
    var gone := GoneThreads(s, ThreadsOf(statuses), Some(baseline));
    StatusesTouchOnlyTheirThreads(s.(records := s.records - gone), statuses, t);
    if t in s.records && t !in ThreadsOf(statuses) {
      // Equal identities are equal objects.
      assert t in baseline && baseline[t].identity == s.records[t].identity ==> s.records[t] == captured.records[t];
    }
  }

  /** Afterwards every live thread that the snapshot does not name is sending or was created
      or replaced after the capture. */
  lemma {:induction false} NoStaleThreadStaysLive(captured: Store, ops: seq<Op>, statuses: seq<TurnStatus>, t: Id)
    requires Numbered(captured)
    ensures var after := ReconcileLive(Steps(captured, ops), statuses, Some(Baseline(captured)));
            t in after.records && Live(after.records[t].record.phase) && t !in ThreadsOf(statuses) ==>
              after.records[t].record.run.sending || after.records[t].identity >= captured.nextIdentity
  {
    var s := Steps(captured, ops);
    StepsAreNewer(captured, ops);
    SnapshotRespectsNews(captured, ops, statuses, t);
    var rest := s.(records := s.records - GoneThreads(s, ThreadsOf(statuses), Some(Baseline(captured))));
    StatusesTouchOnlyTheirThreads(rest, statuses, t);
  }
}
