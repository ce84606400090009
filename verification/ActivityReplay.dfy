/** The registry hands an event to the store and then to the session, which hands it to the
    store again. Delivering a persisted log twice, in whatever interleaving, is harmless. */
module ActivityReplay {
  import opened Prelude
  import opened ThreadRun
  import opened ActivityStore

  /** A log as the server keeps it: persisted, and increasing within each thread. */
  ghost predicate Persisted(log: seq<Event>) {
    && (forall e <- log :: PersistedSeq(e).Some?)
    && (forall i, j | 0 <= i < j < |log| && log[i].threadId == log[j].threadId :: log[i].seq' < log[j].seq')
  }

  ghost predicate Inert(s: Store, e: Event) {
    ApplyEvent(s, e) == s
  }

  lemma {:induction false} AppliedIsInert(s: Store, e: Event)
    requires PersistedSeq(e).Some?
    ensures Inert(ApplyEvent(s, e), e)
  {
    var next := EventRecord(s.Find(e.threadId), s.readAt, e);
    if next.Some? {
      var after := s.Put(next.value);
      assert after.Find(e.threadId) == next;
      assert IsStale(after.Find(e.threadId), e);
    }
  }

  /** A later event never wakes up an earlier one. */
  lemma {:induction false} StaysInert(s: Store, earlier: Event, later: Event)
    requires PersistedSeq(earlier).Some? && PersistedSeq(later).Some? && Inert(s, earlier)
    requires earlier.threadId == later.threadId ==> earlier.seq' < later.seq'
    ensures Inert(ApplyEvent(s, later), earlier)
  {
    var after := ApplyEvent(s, later);
    if earlier.threadId == later.threadId {
      var next := EventRecord(s.Find(later.threadId), s.readAt, later);
      if next.Some? {
        assert after.Find(later.threadId) == next;
        assert IsStale(after.Find(earlier.threadId), earlier);
      }
    } else {
      assert after.Find(earlier.threadId) == s.Find(earlier.threadId);
      InertByRecord(s, after, earlier);
    }
  }

  /** Whether an event is inert depends on the record of its thread alone. */
  lemma {:induction false} InertByRecord(s: Store, after: Store, e: Event)
    requires Inert(s, e) && after.Find(e.threadId) == s.Find(e.threadId) && after.readAt == s.readAt
    ensures Inert(after, e)
  {
    var next := EventRecord(s.Find(e.threadId), s.readAt, e);
    if next.Some? {
      assert next.value.threadId == e.threadId;
      assert s.Find(e.threadId) == next;
    }
  }

  /** After a log has been delivered in order, replaying any of its events changes nothing. */
  lemma {:induction false} DeliveredIsInert(s: Store, log: seq<Event>, i: nat)
    requires Persisted(log) && i < |log|
    ensures Inert(Deliver(s, log), log[i])
  {
    var init, last := log[..|log| - 1], log[|log| - 1];
    assert last in log && log[i] in log;
    if i == |log| - 1 {
      AppliedIsInert(Deliver(s, init), last);
    } else {
      assert Persisted(init);
      DeliveredIsInert(s, init, i);
      StaysInert(Deliver(s, init), log[i], last);
    }
  }

  // ------------------------------------------------------------- schedules

  /** A delivery order, by position in the log, in which every event appears for the first
      time after its predecessors; replays may come in any order and any number. */
  ghost predicate Schedule(order: seq<nat>, length: nat) {
    forall k | 0 <= k < |order| :: order[k] < length && order[k] <= Reached(order[..k])
  }

  ghost predicate Within(order: seq<nat>, length: nat) {
    forall k | 0 <= k < |order| :: order[k] < length
  }

  /** How far into the log a delivery order has got. */
  function Reached(order: seq<nat>): nat {
    if order == [] then 0 else Max(Reached(order[..|order| - 1]), order[|order| - 1] + 1)
  }

  function DeliverOrder(s: Store, log: seq<Event>, order: seq<nat>): Store
    requires Within(order, |log|)
  {
    if order == [] then s
    else ApplyEvent(DeliverOrder(s, log, order[..|order| - 1]), log[order[|order| - 1]])
  }

  lemma {:induction false} ReachedInLog(order: seq<nat>, length: nat)
    requires Within(order, length)
    ensures Reached(order) <= length
  {
    if order != [] {
      ReachedInLog(order[..|order| - 1], length);
    }
  }

  /** From any store, any schedule with any replays ends in the same records as one
      in-order delivery of the part of the log that it has reached. */
  lemma {:induction false} ReplaysAreHarmless(s: Store, log: seq<Event>, order: seq<nat>)
    requires Persisted(log) && Within(order, |log|) && Schedule(order, |log|)
    ensures Reached(order) <= |log|
    ensures DeliverOrder(s, log, order) == Deliver(s, log[..Reached(order)])
  {
    ReachedInLog(order, |log|);
    if order == [] {
      assert log[..0] == [];
    } else {
      var init, k := order[..|order| - 1], order[|order| - 1];
      ScheduleInit(order, |log|);
      ReplaysAreHarmless(s, log, init);
      OneMoreDelivery(s, log, Reached(init), k);
    }
  }

  lemma {:induction false} ScheduleInit(order: seq<nat>, length: nat)
    requires order != [] && Within(order, length) && Schedule(order, length)
    ensures var init := order[..|order| - 1];
            Within(init, length) && Schedule(init, length) && order[|order| - 1] <= Reached(init)
  {
    var init := order[..|order| - 1];
    forall j | 0 <= j < |init| ensures init[j] < length && init[j] <= Reached(init[..j]) {
      assert init[..j] == order[..j] && init[j] == order[j];
    }
  }

  /** A delivery either repeats an event or goes on to the next. */
  lemma {:induction false} OneMoreDelivery(s: Store, log: seq<Event>, reached: nat, k: nat)
    requires Persisted(log) && k < |log| && k <= reached <= |log|
    ensures ApplyEvent(Deliver(s, log[..reached]), log[k]) == Deliver(s, log[..Max(reached, k + 1)])
  {
    if k < reached {
      assert Persisted(log[..reached]);
      assert log[..reached][k] == log[k];
      DeliveredIsInert(s, log[..reached], k);
    } else {
      assert log[..reached + 1][..reached] == log[..reached];
    }
  }

  // ----------------------------------------------------- two deliveries

  /** Two in-order deliveries of the same log: each choice lets one of them go on. */
  function Interleave(choices: seq<bool>): (positions: (nat, nat)) {
    if choices == [] then (0, 0)
    else
      var p := Interleave(choices[..|choices| - 1]);
      if choices[|choices| - 1] then (p.0 + 1, p.1) else (p.0, p.1 + 1)
  }

  function OrderOf(choices: seq<bool>): (order: seq<nat>)
    ensures |order| == |choices|
  {
    if choices == [] then []
    else
      var p := Interleave(choices[..|choices| - 1]);
      OrderOf(choices[..|choices| - 1]) + [if choices[|choices| - 1] then p.0 else p.1]
  }

  lemma {:induction false} InterleavingIsSchedule(choices: seq<bool>, length: nat)
    requires Interleave(choices).0 <= length && Interleave(choices).1 <= length
    ensures Schedule(OrderOf(choices), length)
    ensures Within(OrderOf(choices), length)
    ensures Reached(OrderOf(choices)) == Max(Interleave(choices).0, Interleave(choices).1)
  {
    if choices != [] {
      var init, p := choices[..|choices| - 1], Interleave(choices[..|choices| - 1]);
      InterleavingIsSchedule(init, length);
      ScheduleGoesOn(OrderOf(init), if choices[|choices| - 1] then p.0 else p.1, length);
    }
  }

  lemma {:induction false} ScheduleGoesOn(order: seq<nat>, k: nat, length: nat)
    requires Schedule(order, length) && Within(order, length) && k < length && k <= Reached(order)
    ensures Schedule(order + [k], length) && Within(order + [k], length)
    ensures Reached(order + [k]) == Max(Reached(order), k + 1)
  {
    var next := order + [k];
    assert next[..|order|] == order;
    forall i | 0 <= i < |next| ensures next[i] < length && next[i] <= Reached(next[..i]) {
      if i < |order| { assert next[..i] == order[..i]; }
    }
  }

  /** Any interleaving of two in-order deliveries of a persisted log ends in the same store
      as one in-order delivery, from whatever store it starts. */
  lemma {:induction false} TwoDeliveriesAreOne(s: Store, log: seq<Event>, choices: seq<bool>)
    requires Persisted(log) && Interleave(choices) == (|log|, |log|)
    ensures Within(OrderOf(choices), |log|)
    ensures DeliverOrder(s, log, OrderOf(choices)) == Deliver(s, log)
  {
    InterleavingIsSchedule(choices, |log|);
    ReplaysAreHarmless(s, log, OrderOf(choices));
    assert log[..|log|] == log;
  }
}
