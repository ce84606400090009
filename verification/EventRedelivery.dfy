/** Delivering an event again. After compaction the log no longer knows every id it has
    taken in, so a second delivery can change it; here is exactly when it does not. */
module EventRedelivery {
  import opened Prelude
  import opened StableSort
  import opened EventMerge

  predicate NewId(log: seq<Event>, e: Event) {
    forall i | 0 <= i < |log| :: log[i].id != e.id
  }

  /** The position of the first entry with a higher number, or the end. */
  function FirstBehind(log: seq<Event>, n: int): (k: nat)
    ensures k <= |log| && (forall i | 0 <= i < k :: log[i].seq' <= n)
    ensures k < |log| ==> n < log[k].seq'
  {
    if log == [] || n < log[0].seq' then 0 else 1 + FirstBehind(log[1..], n)
  }

  /** An empty delta of an unknown id that the entry behind it takes in. */
  predicate Vanishes(log: seq<Event>, e: Event) {
    var k := FirstBehind(log, e.seq');
    NewId(log, e) && e.payload.Delta? && e.payload.text == "" && k < |log| && Joins(e, log[k])
  }

  // ------------------------------------------------------------- lengths

  lemma {:induction false} AppendAllLength(log: seq<Event>, events: seq<Event>)
    ensures |AppendAll(log, events)| <= |log| + |events|
  {
    if events != [] { AppendAllLength(log, events[..|events| - 1]); }
  }

  /** Compaction that joins nothing is no change at all. */
  lemma {:induction false} CompactSameLength(events: seq<Event>)
    requires |Compact(events)| == |events|
    ensures Compact(events) == events
  {
    if events != [] {
      var init, last := events[..|events| - 1], events[|events| - 1];
      AppendAllLength([], init);
      CompactSameLength(init);
      assert init + [last] == events;
    }
  }

  lemma {:induction false} UpsertKnown(events: seq<Event>, e: Event)
    requires !NewId(events, e)
    ensures |Upsert(events, e)| == |events| && e in Upsert(events, e)
  {
    if events[0].id != e.id {
      var i :| 0 <= i < |events| && events[i].id == e.id;
      assert events[1..][i - 1].id == e.id;
      UpsertKnown(events[1..], e);
    }
  }

  lemma {:induction false} UpsertOneMore(current: seq<Event>, e: Event)
    requires DistinctIds(current)
    ensures UpsertAll(UpsertAll([], current), [e]) == Upsert(current, e)
  {
    UpsertAllFresh([], current);
    assert [] + current == current;
    assert [e][..0] == [] && UpsertAll(current, []) == current;
  }

  // ----------------------------------------------------------- known ids

  lemma {:induction false} AppendChanges(current: seq<Event>, e: Event)
    requires AppendOnly(current, [e])
    ensures Append(current, e) != current
  {
    var last := |current| - 1;
    if current != [] && Joins(current[last], e) {
      assert Append(current, e)[last].seq' == e.seq';
    } else {
      assert |Append(current, e)| == |current| + 1;
    }
  }

  lemma {:induction false} AppendAllOne(current: seq<Event>, e: Event)
    ensures AppendAll(current, [e]) == Append(current, e)
  {
    assert [e][..0] == [] && AppendAll(current, []) == current;
  }

  /** An event that replaces an entry by something else changes the log. */
  lemma {:induction false} ReplacementChanges(current: seq<Event>, e: Event)
    requires LogOk(current) && !NewId(current, e) && e !in current
    ensures Merge(current, [e]) != current
  {
    if AppendOnly(current, [e]) {
      AppendAllOne(current, e);
      AppendChanges(current, e);
    } else {
      var union := Upsert(current, e);
      UpsertOneMore(current, e);
      UpsertKnown(current, e);
      SortMember(union, SeqOf, e);
      if Compact(Sort(union, SeqOf)) == current { CompactSameLength(Sort(union, SeqOf)); }
    }
  }

  // ------------------------------------------------------------- new ids

  /** A compacted tail that does not join is appended as it is. */
  lemma {:induction false} AppendTail(log: seq<Event>, tail: seq<Event>)
    requires Compacted(tail) && (log != [] && tail != [] ==> !Joins(log[|log| - 1], tail[0]))
    ensures AppendAll(log, tail) == log + tail
  {
    if tail == [] {
      assert log + tail == log;
    } else {
      var init, last := tail[..|tail| - 1], tail[|tail| - 1];
      AppendTail(log, init);
      var before := log + init;
      if init != [] { assert before[|before| - 1] == tail[|tail| - 2]; }
      assert before + [last] == log + tail;
    }
  }

  lemma {:induction false} AppendFirst(log: seq<Event>, tail: seq<Event>)
    requires tail != []
    ensures AppendAll(log, tail) == AppendAll(Append(log, tail[0]), tail[1..])
  {
    assert tail == [tail[0]] + tail[1..];
    AppendAllPlus(log, [tail[0]], tail[1..]);
    AppendAllOne(log, tail[0]);
  }

  /** Joined to the entry before it, a new event leaves its id in the log, or takes the next
      entry away. */
  lemma {:induction false} JoinedBefore(left: seq<Event>, e: Event, right: seq<Event>)
    requires Compacted(right) && NewId(left + right, e)
    requires left != [] && Joins(left[|left| - 1], e)
    ensures AppendAll(Append(left, e), right) != left + right
  {
    var log := Append(left, e);
    var last := |left| - 1;
    if right != [] && Joins(log[last], right[0]) {
      AppendFirst(log, right);
      AppendAllLength(Append(log, right[0]), right[1..]);
    } else {
      AppendTail(log, right);
      assert (log + right)[last].id == e.id;
      assert (left + right)[last].id != e.id;
    }
  }

  lemma {:induction false} JoinedBehind(left: seq<Event>, e: Event, right: seq<Event>)
    requires Compacted(right) && right != [] && Joins(e, right[0])
    requires left != [] ==> !Joins(left[|left| - 1], e)
    ensures AppendAll(Append(left, e), right) == left + right <==> e.payload.text == ""
  {
    var first := right[0];
    var joined := first.(payload := first.payload.(text := e.payload.text + first.payload.text));
    var log := left + [e];
    AppendFirst(log, right);
    assert log[..|log| - 1] == left;
    assert Append(log, first) == left + [joined];
    assert right[1..] != [] ==> right[1..][0] == right[1];
    AppendTail(left + [joined], right[1..]);
    assert left + right == left + [first] + right[1..];
    assert (left + [joined] + right[1..])[|left|] == joined && (left + right)[|left|] == first;
    SameText(e.payload.text, first.payload.text);
  }

  lemma {:induction false} SameText(a: string, b: string)
    ensures a + b == b <==> a == ""
  {
    if a == "" { assert a + b == b; } else { assert |a + b| > |b|; }
  }

  /** What a new event does between the entries that it comes to stand between. */
  lemma {:induction false} BetweenEntries(left: seq<Event>, e: Event, right: seq<Event>)
    requires Compacted(left + right) && NewId(left + right, e)
    ensures Compact(left + [e] + right) == left + right <==>
            right != [] && e.payload.Delta? && e.payload.text == "" && Joins(e, right[0])
  {
    SplitCompacted(left, right);
    CompactOfCompacted(left);
    AppendAllPlus([], left + [e], right);
    AppendAllPlus([], left, [e]);
    AppendAllOne(left, e);
    if left != [] && Joins(left[|left| - 1], e) {
      JoinedBefore(left, e, right);
      assert right != [] ==> (left + right)[|left| - 1] == left[|left| - 1] && (left + right)[|left|] == right[0];
    } else if right != [] && Joins(e, right[0]) {
      JoinedBehind(left, e, right);
    } else {
      AppendTail(left + [e], right);
      assert |left + [e] + right| == |left + right| + 1;
    }
  }

  lemma {:induction false} SplitCompacted(left: seq<Event>, right: seq<Event>)
    requires Compacted(left + right)
    ensures Compacted(left) && Compacted(right)
  {
    var log := left + right;
    forall i | 0 < i < |left| ensures !Joins(left[i - 1], left[i]) {
      assert log[i - 1] == left[i - 1] && log[i] == left[i];
    }
    forall i | 0 < i < |right| ensures !Joins(right[i - 1], right[i]) {
      assert log[|left| + i - 1] == right[i - 1] && log[|left| + i] == right[i];
    }
  }

  lemma {:induction false} SortOneMore(current: seq<Event>, e: Event, k: nat)
    requires Sorted(current, SeqOf) && k == FirstBehind(current, e.seq')
    ensures Sort(current + [e], SeqOf) == current[..k] + [e] + current[k..]
  {
    AllBehind(current, e.seq', k);
    SortSnoc(current, e);
    InsertedAt(current, e, k);
  }

  lemma {:induction false} InsertedAt(current: seq<Event>, e: Event, k: nat)
    requires k <= |current| && (k > 0 ==> current[k - 1].seq' <= e.seq')
    requires forall x <- current[k..] :: e.seq' < x.seq'
    ensures Insert(current, e, SeqOf) == current[..k] + [e] + current[k..]
  {
    var left, right := current[..k], current[k..];
    assert current == left + right;
    InsertAt(left, right, e);
  }

  lemma {:induction false} SortSnoc(current: seq<Event>, e: Event)
    requires Sorted(current, SeqOf)
    ensures Sort(current + [e], SeqOf) == Insert(current, e, SeqOf)
  {
    assert (current + [e])[..|current|] == current;
    SortOfSorted(current, SeqOf);
  }

  lemma {:induction false} AllBehind(current: seq<Event>, n: int, k: nat)
    requires Sorted(current, SeqOf) && k == FirstBehind(current, n)
    ensures forall x <- current[k..] :: n < x.seq'
  {
    var right := current[k..];
    forall x | x in right ensures n < x.seq' {
      var i :| 0 <= i < |right| && right[i] == x;
      if i > 0 { assert SeqOf(current[k]) <= SeqOf(current[k + i]); }
    }
  }

  lemma {:induction false} NewEvent(current: seq<Event>, e: Event)
    requires LogOk(current) && NewId(current, e)
    ensures Merge(current, [e]) == current <==> Vanishes(current, e)
  {
    var k := FirstBehind(current, e.seq');
    if AppendOnly(current, [e]) {
      AppendAllOne(current, e);
      AppendChanges(current, e);
      assert k < |current| ==> SeqOf(current[k]) <= SeqOf(current[|current| - 1]);
    } else {
      UpsertOneMore(current, e);
      UpsertFresh(current, e);
      SortOneMore(current, e, k);
      assert current == current[..k] + current[k..];
      BetweenEntries(current[..k], e, current[k..]);
    }
  }

  /** Delivering an event leaves the log as it is if and only if the log holds that very
      event, or the event is an empty delta that the next entry takes in. */
  lemma {:induction false} RedeliveryIsHarmlessExactly(current: seq<Event>, e: Event)
    requires LogOk(current)
    ensures Merge(current, [e]) == current <==> e in current || Vanishes(current, e)
  {
    if NewId(current, e) {
      NewEvent(current, e);
    } else if e in current {
      PresentEventsChangeNothing(current, [e]);
    } else {
      ReplacementChanges(current, e);
    }
  }
}
