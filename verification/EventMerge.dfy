/** Merging incoming events into the log of a conversation. Neighbouring text deltas of one
    provider attempt are compacted into one event that keeps the identity of the last. */
module EventMerge {
  import opened Prelude
  import opened StableSort

  datatype Attempt = Attempt(requestId: nat, round: nat, attempt: nat)

  datatype Payload = Delta(text: string, attempt: Option<Attempt>) | Other(content: nat)

  datatype Event = Event(id: nat, seq': int, threadId: nat, turnId: Option<nat>, payload: Payload)

  /** What two deltas must share to be compacted. */
  datatype RunKey = RunKey(threadId: nat, turnId: Option<nat>, attempt: Option<Attempt>)

  function KeyOf(e: Event): RunKey
    requires e.payload.Delta?
  {
    RunKey(e.threadId, e.turnId, e.payload.attempt)
  }

  predicate Joins(previous: Event, e: Event) {
    previous.payload.Delta? && e.payload.Delta? && KeyOf(previous) == KeyOf(e)
  }

  function SeqOf(e: Event): int { e.seq' }

  function Append(log: seq<Event>, e: Event): seq<Event> {
    var last := |log| - 1;
    if log != [] && Joins(log[last], e)
    then log[..last] + [e.(payload := e.payload.(text := log[last].payload.text + e.payload.text))]
    else log + [e]
  }

  function AppendAll(log: seq<Event>, events: seq<Event>): seq<Event> {
    if events == [] then log else Append(AppendAll(log, events[..|events| - 1]), events[|events| - 1])
  }

  function Compact(events: seq<Event>): seq<Event> {
    AppendAll([], events)
  }

  /** Setting a key of an insertion-ordered map. */
  function Upsert(events: seq<Event>, e: Event): seq<Event> {
    if events == [] then [e]
    else if events[0].id == e.id then [e] + events[1..]
    else [events[0]] + Upsert(events[1..], e)
  }

  function UpsertAll(events: seq<Event>, more: seq<Event>): seq<Event> {
    if more == [] then events else Upsert(UpsertAll(events, more[..|more| - 1]), more[|more| - 1])
  }

  /** Every incoming event comes after the tail and after its predecessor. */
  predicate AppendOnly(current: seq<Event>, incoming: seq<Event>) {
    && (forall i | 0 < i < |incoming| :: incoming[i - 1].seq' < incoming[i].seq')
    && (current != [] && incoming != [] ==> current[|current| - 1].seq' < incoming[0].seq')
  }

  function Merge(current: seq<Event>, incoming: seq<Event>): seq<Event> {
    if incoming == [] then current
    else if AppendOnly(current, incoming) then AppendAll(current, incoming)
    else Compact(Sort(UpsertAll(UpsertAll([], current), incoming), SeqOf))
  }

  method AppendCompactedEvent(compacted: seq<Event>, e: Event) returns (result: seq<Event>)
    ensures result == Append(compacted, e)
  {
    if compacted != [] {
      var previous := compacted[|compacted| - 1];
      if previous.payload.Delta? && e.payload.Delta? && previous.threadId == e.threadId
         && previous.turnId == e.turnId && previous.payload.attempt == e.payload.attempt {
        return compacted[..|compacted| - 1]
          + [e.(payload := e.payload.(text := previous.payload.text + e.payload.text))];
      }
    }
    return compacted + [e];
  }

  method IsAppendOnly(current: seq<Event>, incoming: seq<Event>) returns (appendOnly: bool)
    ensures appendOnly == AppendOnly(current, incoming)
  {
    appendOnly := true;
    var previousSeq := if current == [] then None else Some(current[|current| - 1].seq');
    var i := 0;
    while appendOnly && i < |incoming|
      invariant 0 <= i <= |incoming|
      invariant i == 0 ==> previousSeq == if current == [] then None else Some(current[|current| - 1].seq')
      invariant i > 0 ==> previousSeq == Some(incoming[i - 1].seq')
      invariant appendOnly <==> AppendOnly(current, incoming[..i])
      invariant !appendOnly ==> !AppendOnly(current, incoming)
    {
      appendOnly := previousSeq.None? || incoming[i].seq' > previousSeq.value;
      previousSeq := Some(incoming[i].seq');
      i := i + 1;
      assert incoming[..i][i - 1] == incoming[i - 1] && (i > 1 ==> incoming[..i][i - 2] == incoming[i - 2]);
    }
    assert incoming[..|incoming|] == incoming;
  }

  method AppendCompactedEvents(log: seq<Event>, events: seq<Event>) returns (result: seq<Event>)
    ensures result == AppendAll(log, events)
  {
    result := log;
    for k := 0 to |events|
      invariant result == AppendAll(log, events[..k])
    {
      assert events[..k + 1][..k] == events[..k];
      result := AppendCompactedEvent(result, events[k]);
    }
    assert events[..|events|] == events;
  }

  method MergeConversationEvents(current: seq<Event>, incoming: seq<Event>) returns (result: seq<Event>)
    ensures result == Merge(current, incoming)
  {
    if incoming == [] { return current; }
    var appendOnly := IsAppendOnly(current, incoming);
    if appendOnly {
      result := AppendCompactedEvents(current, incoming);
      return;
    }
    var byId := UpsertAll([], current);
    for k := 0 to |incoming|
      invariant byId == UpsertAll(UpsertAll([], current), incoming[..k])
    {
      assert incoming[..k + 1][..k] == incoming[..k];
      byId := Upsert(byId, incoming[k]);
    }
    assert incoming[..|incoming|] == incoming;
    result := AppendCompactedEvents([], Sort(byId, SeqOf));
  }

  // ------------------------------------------------------------ compaction

  ghost predicate Compacted(log: seq<Event>) {
    forall i | 0 < i < |log| :: !Joins(log[i - 1], log[i])
  }

  ghost predicate DistinctIds(log: seq<Event>) {
    forall i, j | 0 <= i < j < |log| :: log[i].id != log[j].id
  }

  /** What every log of the program is: sorted, compacted and free of repeated ids. */
  ghost predicate LogOk(log: seq<Event>) {
    Sorted(log, SeqOf) && Compacted(log) && DistinctIds(log)
  }

  lemma {:induction false} AppendCompacts(log: seq<Event>, e: Event)
    requires Compacted(log)
    ensures Compacted(Append(log, e))
  {
  }

  lemma {:induction false} AppendAllPlus(log: seq<Event>, a: seq<Event>, b: seq<Event>)
    ensures AppendAll(log, a + b) == AppendAll(AppendAll(log, a), b)
    decreases |b|
  {
    if b == [] {
      assert a + b == a;
    } else {
      assert (a + b)[..|a + b| - 1] == a + b[..|b| - 1];
      AppendAllPlus(log, a, b[..|b| - 1]);
    }
  }

  lemma {:induction false} CompactCompacts(events: seq<Event>)
    ensures Compacted(Compact(events))
  {
    if events != [] {
      CompactCompacts(events[..|events| - 1]);
      AppendCompacts(Compact(events[..|events| - 1]), events[|events| - 1]);
    }
  }

  lemma {:induction false} CompactOfCompacted(log: seq<Event>)
    requires Compacted(log)
    ensures Compact(log) == log
  {
    if log != [] {
      var init := log[..|log| - 1];
      CompactOfCompacted(init);
      assert init != [] ==> init[|init| - 1] == log[|log| - 2];
      assert init + [log[|log| - 1]] == log;
    }
  }

  /** Events without text are never compacted, so they can be appended in one go. */
  lemma {:induction false} AppendOthers(log: seq<Event>, others: seq<Event>)
    requires forall e <- others :: !e.payload.Delta?
    ensures AppendAll(log, others) == log + others
  {
    if others == [] {
      assert log + others == log;
    } else {
      var init := others[..|others| - 1];
      AppendOthers(log, init);
      assert others[|others| - 1] in others;
      assert log + init + [others[|others| - 1]] == log + others;
    }
  }

  /** Positions and identities of a compacted log come from its events. */
  lemma {:induction false} CompactFrom(events: seq<Event>, x: Event)
    requires x in Compact(events)
    ensures exists e <- events :: e.seq' == x.seq' && e.id == x.id
  {
    var init, last := events[..|events| - 1], events[|events| - 1];
    var log := Compact(init);
    assert last in events;
    if x in log {
      CompactFrom(init, x);
      var e :| e in init && e.seq' == x.seq' && e.id == x.id;
      assert e in events;
    }
  }

  // --------------------------------------------------- inserting one event

  lemma {:induction false} InsertAt(left: seq<Event>, right: seq<Event>, e: Event)
    requires left != [] ==> left[|left| - 1].seq' <= e.seq'
    requires forall x <- right :: e.seq' < x.seq'
    ensures Insert(left + right, e, SeqOf) == left + [e] + right
    decreases |right|
  {
    var whole := left + right;
    if right == [] {
      assert whole == left && left + [e] + right == left + [e];
    } else {
      var init, last := right[..|right| - 1], right[|right| - 1];
      assert last in right;
      assert whole[..|whole| - 1] == left + init && whole[|whole| - 1] == last;
      InsertAt(left, init, e);
      assert left + [e] + init + [last] == left + [e] + right;
    }
  }

  ghost predicate AboveDeltas(log: seq<Event>, seq': int) {
    forall x <- log :: x.payload.Delta? ==> x.seq' < seq'
  }

  /** An event above all deltas of a log finds the same place, with the same effect, in the
      compacted log: what follows it has no text. */
  lemma {:induction false} InsertIntoCompacted(log: seq<Event>, e: Event)
    requires Sorted(log, SeqOf) && AboveDeltas(log, e.seq')
    ensures Compact(Insert(log, e, SeqOf)) == Compact(Insert(Compact(log), e, SeqOf))
  {
    var k := InsertSplits(log, e, SeqOf);
    var left, right := log[..k], log[k..];
    assert log == left + right;
    forall x | x in right ensures !x.payload.Delta? { assert x in log; }
    CompactOfParts(left, right);
    if Compact(left) != [] {
      CompactFrom(left, Compact(left)[|Compact(left)| - 1]);
    }
    InsertAt(Compact(left), right, e);
    CompactedAlike(left, e, right);
  }

  lemma {:induction false} CompactOfParts(left: seq<Event>, right: seq<Event>)
    requires forall x <- right :: !x.payload.Delta?
    ensures Compact(left + right) == Compact(left) + right
  {
    AppendOthers(Compact(left), right);
    AppendAllPlus([], left, right);
  }

  lemma {:induction false} CompactedAlike(left: seq<Event>, e: Event, right: seq<Event>)
    requires forall x <- right :: !x.payload.Delta?
    ensures Compact(left + [e] + right) == Compact(Compact(left) + [e] + right)
  {
    CompactWithTail(left, e, right);
    CompactWithTail(Compact(left), e, right);
    CompactCompacts(left);
    CompactOfCompacted(Compact(left));
  }

  lemma {:induction false} CompactWithTail(left: seq<Event>, e: Event, right: seq<Event>)
    requires forall x <- right :: !x.payload.Delta?
    ensures Compact(left + [e] + right) == Append(Compact(left), e) + right
  {
    AppendAllPlus([], left + [e], right);
    assert (left + [e])[..|left|] == left;
    AppendOthers(Append(Compact(left), e), right);
  }

  // ------------------------------------------------------- merging in order

  ghost predicate FreshIds(current: seq<Event>, incoming: seq<Event>) {
    DistinctIds(incoming) && forall x <- current, y <- incoming :: x.id != y.id
  }

  /** A stream that goes on where the texts of the log end. */
  ghost predicate InOrder(current: seq<Event>, incoming: seq<Event>) {
    && (forall i, j | 0 <= i < j < |incoming| :: incoming[i].seq' < incoming[j].seq')
    && (forall y <- incoming :: AboveDeltas(current, y.seq'))
  }

  lemma {:induction false} UpsertFresh(events: seq<Event>, e: Event)
    requires forall x <- events :: x.id != e.id
    ensures Upsert(events, e) == events + [e]
  {
    if events != [] {
      assert events[0] in events;
      UpsertFresh(events[1..], e);
      assert [events[0]] + (events[1..] + [e]) == events + [e];
    }
  }

  lemma {:induction false} UpsertAllFresh(events: seq<Event>, more: seq<Event>)
    requires FreshIds(events, more)
    ensures UpsertAll(events, more) == events + more
  {
    if more == [] {
      assert events + more == events;
    } else {
      var init, last := more[..|more| - 1], more[|more| - 1];
      UpsertAllFresh(events, init);
      forall x | x in events + init ensures x.id != last.id {
        if x in init {
          var i :| 0 <= i < |init| && init[i] == x;
          assert more[i] == x;
        } else {
          assert last in more;
        }
      }
      UpsertFresh(events + init, last);
      assert events + init + [last] == events + more;
    }
  }

  lemma {:induction false} StrictlyBehind(current: seq<Event>, incoming: seq<Event>, i: nat, j: nat)
    requires Sorted(current, SeqOf) && AppendOnly(current, incoming) && i < j < |current + incoming| && j >= |current|
    ensures (current + incoming)[i].seq' < (current + incoming)[j].seq'
    decreases j
  {
    var s := current + incoming;
    assert j > 0 && s[j - 1].seq' < s[j].seq';
    if i < j - 1 {
      if j > |current| {
        StrictlyBehind(current, incoming, i, j - 1);
      } else {
        assert SeqOf(current[i]) <= SeqOf(current[j - 1]);
      }
    }
  }

  lemma {:induction false} AppendOnlySorts(current: seq<Event>, incoming: seq<Event>)
    requires Sorted(current, SeqOf) && AppendOnly(current, incoming)
    ensures Sorted(current + incoming, SeqOf)
  {
    var s := current + incoming;
    forall i, j | 0 <= i < j < |s| ensures SeqOf(s[i]) <= SeqOf(s[j]) {
      if j >= |current| { StrictlyBehind(current, incoming, i, j); }
    }
  }

  /** For fresh events the fast path and the slow path agree: both compact the sorted union
      of the log and the events. */
  lemma {:induction false} FastPathIsSlowPath(current: seq<Event>, incoming: seq<Event>)
    requires LogOk(current) && FreshIds(current, incoming)
    ensures Merge(current, incoming) == Compact(Sort(current + incoming, SeqOf))
  {
    if incoming == [] {
      assert current + incoming == current;
      SortOfSorted(current, SeqOf);
      CompactOfCompacted(current);
    } else if AppendOnly(current, incoming) {
      AppendOnlySorts(current, incoming);
      SortOfSorted(current + incoming, SeqOf);
      AppendAllPlus([], current, incoming);
      CompactOfCompacted(current);
    } else {
      UpsertAllFresh([], current);
      assert [] + current == current;
      UpsertAllFresh(current, incoming);
    }
  }

  // -------------------------------------------------------- logs stay logs

  lemma {:induction false} CompactSorts(events: seq<Event>)
    requires Sorted(events, SeqOf)
    ensures Sorted(Compact(events), SeqOf)
  {
    if events != [] {
      var init, last := events[..|events| - 1], events[|events| - 1];
      var log := Compact(init);
      CompactSorts(init);
      forall x | x in log ensures x.seq' <= last.seq' {
        CompactFrom(init, x);
        var e :| e in init && e.seq' == x.seq' && e.id == x.id;
        var i :| 0 <= i < |init| && init[i] == e;
        assert SeqOf(events[i]) <= SeqOf(events[|events| - 1]);
      }
    }
  }

  lemma {:induction false} CompactKeepsIdsApart(events: seq<Event>)
    requires DistinctIds(events)
    ensures DistinctIds(Compact(events))
  {
    if events != [] {
      var init, last := events[..|events| - 1], events[|events| - 1];
      var log := Compact(init);
      CompactKeepsIdsApart(init);
      forall x | x in log ensures x.id != last.id {
        CompactFrom(init, x);
        var e :| e in init && e.seq' == x.seq' && e.id == x.id;
        var i :| 0 <= i < |init| && init[i] == e;
        assert events[i].id != events[|events| - 1].id;
      }
      AppendKeepsIdsApart(log, last);
    }
  }

  lemma {:induction false} AppendKeepsIdsApart(log: seq<Event>, e: Event)
    requires DistinctIds(log) && forall x <- log :: x.id != e.id
    ensures DistinctIds(Append(log, e))
  {
  }

  lemma {:induction false} InsertKeepsIdsApart(s: seq<Event>, e: Event)
    requires Sorted(s, SeqOf) && DistinctIds(s) && forall x <- s :: x.id != e.id
    ensures DistinctIds(Insert(s, e, SeqOf))
  {
    var k := InsertSplits(s, e, SeqOf);
    var r := s[..k] + [e] + s[k..];
    forall i, j | 0 <= i < j < |r| ensures r[i].id != r[j].id {
      var i', j' := if i <= k then i else i - 1, if j <= k then j else j - 1;
      if i == k { assert s[j'] in s; }
      if j == k { assert s[i'] in s; }
    }
  }

  lemma {:induction false} SortKeepsIdsApart(s: seq<Event>)
    requires DistinctIds(s)
    ensures DistinctIds(Sort(s, SeqOf))
  {
    if s != [] {
      var init, last := s[..|s| - 1], s[|s| - 1];
      SortKeepsIdsApart(init);
      SortSorts(init, SeqOf);
      forall x | x in Sort(init, SeqOf) ensures x.id != last.id {
        SortMember(init, SeqOf, x);
        var i :| 0 <= i < |init| && init[i] == x;
        assert s[i].id != s[|s| - 1].id;
      }
      InsertKeepsIdsApart(Sort(init, SeqOf), last);
    }
  }

  /** Events with equal ids, in the log or among the incoming ones, have equal positions. */
  ghost predicate OneSeqPerId(current: seq<Event>, incoming: seq<Event>) {
    forall x <- current + incoming, y <- incoming :: x.id == y.id ==> x.seq' == y.seq'
  }

  lemma {:induction false} FreshHaveOneSeq(current: seq<Event>, incoming: seq<Event>)
    requires FreshIds(current, incoming)
    ensures OneSeqPerId(current, incoming)
  {
    forall x, y | x in current + incoming && y in incoming && x.id == y.id ensures x.seq' == y.seq' {
      var i :| 0 <= i < |incoming| && incoming[i] == x;
      var j :| 0 <= j < |incoming| && incoming[j] == y;
    }
  }

  /** What the fast path accepts has ids of its own. */
  lemma {:induction false} AppendedAreFresh(current: seq<Event>, incoming: seq<Event>)
    requires LogOk(current) && AppendOnly(current, incoming) && OneSeqPerId(current, incoming)
    ensures DistinctIds(current + incoming)
  {
    var s := current + incoming;
    forall i, j | 0 <= i < j < |s| ensures s[i].id != s[j].id {
      if j >= |current| {
        StrictlyBehind(current, incoming, i, j);
        assert s[i] in s && s[j] in incoming;
      }
    }
  }

  lemma {:induction false} UpsertFrom(events: seq<Event>, e: Event, x: Event)
    requires x in Upsert(events, e)
    ensures x in events || x == e
  {
    if events != [] && events[0].id != e.id && x != events[0] {
      UpsertFrom(events[1..], e, x);
    }
  }

  lemma {:induction false} UpsertKeepsIdsApart(events: seq<Event>, e: Event)
    requires DistinctIds(events)
    ensures DistinctIds(Upsert(events, e))
  {
    if events != [] && events[0].id != e.id {
      var first, rest := events[0], events[1..];
      UpsertKeepsIdsApart(rest, e);
      forall x | x in Upsert(rest, e) ensures x.id != first.id {
        UpsertFrom(rest, e, x);
        if x in rest { var i :| 0 <= i < |rest| && rest[i] == x; }
      }
    }
  }

  lemma {:induction false} UpsertsKeepIdsApart(events: seq<Event>, more: seq<Event>)
    requires DistinctIds(events)
    ensures DistinctIds(UpsertAll(events, more))
    ensures forall x <- UpsertAll(events, more) :: x in events || x in more
  {
    if more != [] {
      var init, last := more[..|more| - 1], more[|more| - 1];
      UpsertsKeepIdsApart(events, init);
      UpsertKeepsIdsApart(UpsertAll(events, init), last);
      forall x | x in UpsertAll(events, more) ensures x in events || x in more {
        UpsertFrom(UpsertAll(events, init), last, x);
      }
    }
  }

  /** On either path the merge compacts sorted events with ids of their own. */
  lemma {:induction false} MergeCompacts(current: seq<Event>, incoming: seq<Event>) returns (union: seq<Event>)
    requires LogOk(current) && OneSeqPerId(current, incoming)
    ensures Merge(current, incoming) == Compact(Sort(union, SeqOf)) && DistinctIds(union)
    ensures forall x <- union :: x in current + incoming
  {
    if AppendOnly(current, incoming) {
      union := current + incoming;
      AppendedAreFresh(current, incoming);
      DistinctAreFresh(current, incoming);
      FastPathIsSlowPath(current, incoming);
    } else {
      UpsertAllFresh([], current);
      assert [] + current == current;
      union := UpsertAll(current, incoming);
      UpsertsKeepIdsApart(current, incoming);
    }
  }

  lemma {:induction false} DistinctAreFresh(current: seq<Event>, incoming: seq<Event>)
    requires DistinctIds(current + incoming)
    ensures FreshIds(current, incoming)
  {
    var s := current + incoming;
    assert forall i | 0 <= i < |incoming| :: incoming[i] == s[|current| + i];
    forall x, y | x in current && y in incoming ensures x.id != y.id {
      var i :| 0 <= i < |current| && current[i] == x;
      var j :| 0 <= j < |incoming| && incoming[j] == y;
      assert s[i] == x && s[|current| + j] == y;
    }
  }

  /** Merging keeps the log sorted, compacted and free of repeated ids, whether the events
      are new or delivered again, and brings in no identity or position that was not
      there. */
  lemma {:induction false} MergeKeepsLogOk(current: seq<Event>, incoming: seq<Event>)
    requires LogOk(current) && OneSeqPerId(current, incoming)
    ensures LogOk(Merge(current, incoming))
    ensures forall x <- Merge(current, incoming) ::
              exists e <- current + incoming :: e.seq' == x.seq' && e.id == x.id
  {
    var union := MergeCompacts(current, incoming);
    var sorted := Sort(union, SeqOf);
    SortSorts(union, SeqOf);
    CompactSorts(sorted);
    CompactCompacts(sorted);
    SortKeepsIdsApart(union);
    CompactKeepsIdsApart(sorted);
    forall x | x in Merge(current, incoming)
      ensures exists e <- current + incoming :: e.seq' == x.seq' && e.id == x.id
    {
      CompactFrom(sorted, x);
      var e :| e in sorted && e.seq' == x.seq' && e.id == x.id;
      SortMember(union, SeqOf, e);
    }
  }

  // ------------------------------------------------------ splitting a stream

  /** Sorting a log together with more events is inserting them one after the other. */
  function InsertAll(log: seq<Event>, more: seq<Event>): seq<Event> {
    if more == [] then log else Insert(InsertAll(log, more[..|more| - 1]), more[|more| - 1], SeqOf)
  }

  lemma {:induction false} SortPlus(a: seq<Event>, b: seq<Event>)
    ensures Sort(a + b, SeqOf) == InsertAll(Sort(a, SeqOf), b)
    decreases |b|
  {
    if b == [] {
      assert a + b == a;
    } else {
      assert (a + b)[..|a + b| - 1] == a + b[..|b| - 1];
      SortPlus(a, b[..|b| - 1]);
    }
  }

  lemma {:induction false} InsertAllFacts(log: seq<Event>, more: seq<Event>, x: Event)
    requires Sorted(log, SeqOf)
    ensures Sorted(InsertAll(log, more), SeqOf)
    ensures x in InsertAll(log, more) <==> x in log || x in more
  {
    if more != [] {
      var init, last := more[..|more| - 1], more[|more| - 1];
      InsertAllFacts(log, init, x);
      var before := InsertAll(log, init);
      InsertSorts(before, last, SeqOf);
      var k := InsertSplits(before, last, SeqOf);
      assert before == before[..k] + before[k..] && more == init + [last];
    }
  }

  lemma {:induction false} StillAboveDeltas(log: seq<Event>, more: seq<Event>, e: Event)
    requires Sorted(log, SeqOf) && InOrder(log, more + [e])
    ensures AboveDeltas(InsertAll(log, more), e.seq')
  {
    var stream := more + [e];
    assert e in stream;
    forall x | x in InsertAll(log, more) && x.payload.Delta? ensures x.seq' < e.seq' {
      InsertAllFacts(log, more, x);
      if x in more {
        var i :| 0 <= i < |more| && more[i] == x;
        assert stream[i] == x && stream[|more|] == e;
      }
    }
  }

  lemma {:induction false} CompactIsAbove(events: seq<Event>, seq': int)
    requires AboveDeltas(events, seq')
    ensures AboveDeltas(Compact(events), seq')
  {
    if events != [] {
      var init, last := events[..|events| - 1], events[|events| - 1];
      assert last in events;
      CompactIsAbove(init, seq');
    }
  }

  /** Compacting first makes no difference to what an in-order stream adds. */
  lemma {:induction false} StreamIntoCompacted(log: seq<Event>, more: seq<Event>)
    requires Sorted(log, SeqOf) && InOrder(log, more)
    ensures Compact(InsertAll(log, more)) == Compact(InsertAll(Compact(log), more))
  {
    CompactSorts(log);
    if more == [] {
      CompactCompacts(log);
      CompactOfCompacted(Compact(log));
    } else {
      var init, last := more[..|more| - 1], more[|more| - 1];
      assert more == init + [last];
      forall y | y in more ensures AboveDeltas(Compact(log), y.seq') { CompactIsAbove(log, y.seq'); }
      assert InOrder(log, init) by {
        forall y | y in init ensures AboveDeltas(log, y.seq') { assert y in more; }
      }
      StreamIntoCompacted(log, init);
      StillAboveDeltas(log, init, last);
      StillAboveDeltas(Compact(log), init, last);
      InsertAllFacts(log, init, last);
      InsertAllFacts(Compact(log), init, last);
      InsertIntoCompacted(InsertAll(log, init), last);
      InsertIntoCompacted(InsertAll(Compact(log), init), last);
    }
  }

  lemma {:induction false} StreamIsAbove(current: seq<Event>, a: seq<Event>, b: seq<Event>, y: Event, x: Event)
    requires InOrder(current, a + b) && y in b && x in current + a && x.payload.Delta?
    ensures x.seq' < y.seq'
  {
    var stream := a + b;
    var j :| 0 <= j < |b| && b[j] == y;
    assert stream[|a| + j] == y && y in stream;
    if x in a {
      var i :| 0 <= i < |a| && a[i] == x;
      assert stream[i] == x;
    }
  }

  lemma {:induction false} StreamGoesOn(current: seq<Event>, a: seq<Event>, b: seq<Event>)
    requires InOrder(current, a + b)
    ensures InOrder(Sort(current + a, SeqOf), b)
  {
    var sorted, stream := Sort(current + a, SeqOf), a + b;
    forall i, j | 0 <= i < j < |b| ensures b[i].seq' < b[j].seq' {
      assert stream[|a| + i] == b[i] && stream[|a| + j] == b[j];
    }
    forall y, x | y in b && x in sorted && x.payload.Delta? ensures x.seq' < y.seq' {
      SortMember(current + a, SeqOf, x);
      StreamIsAbove(current, a, b, y, x);
    }
  }

  /** Delivering a fresh, in-order stream in two batches gives the log that one batch gives,
      also when an event of a higher position, local or early, already sits at the tail. */
  lemma {:induction false} TwoBatchesAreOne(current: seq<Event>, a: seq<Event>, b: seq<Event>)
    requires LogOk(current) && FreshIds(current, a + b) && InOrder(current, a + b)
    ensures FreshIds(current, a) && FreshIds(Merge(current, a), b)
    ensures Merge(Merge(current, a), b) == Merge(current, a + b)
  {
    SplitFresh(current, a, b);
    FastPathIsSlowPath(current, a);
    FreshHaveOneSeq(current, a);
    MergeKeepsLogOk(current, a);
    FreshAfterMerge(current, a, b);
    FastPathIsSlowPath(Merge(current, a), b);
    FastPathIsSlowPath(current, a + b);
    CompactingEarlyIsHarmless(current, a, b);
  }

  lemma {:induction false} CompactingEarlyIsHarmless(current: seq<Event>, a: seq<Event>, b: seq<Event>)
    requires InOrder(current, a + b)
    ensures Compact(Sort(Compact(Sort(current + a, SeqOf)) + b, SeqOf)) == Compact(Sort(current + (a + b), SeqOf))
  {
    assert current + (a + b) == (current + a) + b;
    SortPlus(current + a, b);
    SortSorts(current + a, SeqOf);
    StreamGoesOn(current, a, b);
    SortOntoCompacted(Sort(current + a, SeqOf), b);
  }

  lemma {:induction false} SortOntoCompacted(sorted: seq<Event>, b: seq<Event>)
    requires Sorted(sorted, SeqOf) && InOrder(sorted, b)
    ensures Compact(Sort(Compact(sorted) + b, SeqOf)) == Compact(InsertAll(sorted, b))
  {
    StreamIntoCompacted(sorted, b);
    CompactSorts(sorted);
    SortOfSorted(Compact(sorted), SeqOf);
    SortPlus(Compact(sorted), b);
  }

  lemma {:induction false} SplitFresh(current: seq<Event>, a: seq<Event>, b: seq<Event>)
    requires FreshIds(current, a + b)
    ensures FreshIds(current, a) && FreshIds(current, b) && FreshIds(a, b)
  {
    var s := a + b;
    forall i, j | 0 <= i < j < |a| ensures a[i].id != a[j].id { assert s[i] == a[i] && s[j] == a[j]; }
    forall i, j | 0 <= i < j < |b| ensures b[i].id != b[j].id {
      assert s[|a| + i] == b[i] && s[|a| + j] == b[j];
    }
    forall x, y | x in current && y in a ensures x.id != y.id { assert y in s; }
    forall x, y | x in current && y in b ensures x.id != y.id { assert y in s; }
    forall x, y | x in a && y in b ensures x.id != y.id {
      var i :| 0 <= i < |a| && a[i] == x;
      var j :| 0 <= j < |b| && b[j] == y;
      assert s[i] == x && s[|a| + j] == y;
    }
  }

  lemma {:induction false} FreshAfterMerge(current: seq<Event>, a: seq<Event>, b: seq<Event>)
    requires LogOk(current) && FreshIds(current, a) && FreshIds(current, b) && FreshIds(a, b)
    ensures FreshIds(Merge(current, a), b)
  {
    FreshHaveOneSeq(current, a);
    MergeKeepsLogOk(current, a);
    forall x, y | x in Merge(current, a) && y in b ensures x.id != y.id {
      var e :| e in current + a && e.seq' == x.seq' && e.id == x.id;
    }
  }

  function MergeBatches(current: seq<Event>, batches: seq<seq<Event>>): seq<Event> {
    if batches == [] then current
    else Merge(MergeBatches(current, batches[..|batches| - 1]), batches[|batches| - 1])
  }

  lemma {:induction false} ConcatSnoc(batches: seq<seq<Event>>)
    requires batches != []
    ensures Concat(batches) == Concat(batches[..|batches| - 1]) + batches[|batches| - 1]
  {
    var init, last := batches[..|batches| - 1], batches[|batches| - 1];
    assert batches == init + [last];
    ConcatAppend(init, [last]);
    ConcatOne(last);
  }

  /** However a fresh, in-order stream is cut into batches, the log is the same. */
  lemma {:induction false} EverySplitGivesTheSameLog(current: seq<Event>, batches: seq<seq<Event>>)
    requires LogOk(current) && FreshIds(current, Concat(batches)) && InOrder(current, Concat(batches))
    ensures MergeBatches(current, batches) == Merge(current, Concat(batches))
  {
    if batches != [] {
      var init, last := batches[..|batches| - 1], batches[|batches| - 1];
      ConcatSnoc(batches);
      SplitFresh(current, Concat(init), last);
      assert InOrder(current, Concat(init)) by {
        var whole, part := Concat(batches), Concat(init);
        forall i, j | 0 <= i < j < |part| ensures part[i].seq' < part[j].seq' {
          assert whole[i] == part[i] && whole[j] == part[j];
        }
        forall y | y in part ensures AboveDeltas(current, y.seq') { assert y in whole; }
      }
      EverySplitGivesTheSameLog(current, init);
      TwoBatchesAreOne(current, Concat(init), last);
    }
  }

  // ------------------------------------------------------------------ text

  predicate InRun(e: Event, key: RunKey) {
    e.payload.Delta? && KeyOf(e) == key
  }

  /** The text of one run, as it stands in the log. */
  function RunText(log: seq<Event>, key: RunKey): string {
    if log == [] then ""
    else
      var last := log[|log| - 1];
      RunText(log[..|log| - 1], key) + if InRun(last, key) then last.payload.text else ""
  }

  lemma {:induction false} RunTextPlus(a: seq<Event>, b: seq<Event>, key: RunKey)
    ensures RunText(a + b, key) == RunText(a, key) + RunText(b, key)
    decreases |b|
  {
    if b == [] {
      assert a + b == a;
    } else {
      assert (a + b)[..|a + b| - 1] == a + b[..|b| - 1];
      RunTextPlus(a, b[..|b| - 1], key);
    }
  }

  lemma {:induction false} AppendKeepsText(log: seq<Event>, e: Event, key: RunKey)
    ensures RunText(Append(log, e), key) == RunText(log, key) + if InRun(e, key) then e.payload.text else ""
  {
    var last := |log| - 1;
    if log != [] && Joins(log[last], e) {
      assert Append(log, e)[..last] == log[..last];
    } else {
      assert (log + [e])[..|log|] == log;
    }
  }

  lemma {:induction false} CompactKeepsText(log: seq<Event>, events: seq<Event>, key: RunKey)
    ensures RunText(AppendAll(log, events), key) == RunText(log, key) + RunText(events, key)
  {
    if events != [] {
      var init := events[..|events| - 1];
      CompactKeepsText(log, init, key);
      AppendKeepsText(AppendAll(log, init), events[|events| - 1], key);
    }
  }

  lemma {:induction false} RunTextOfFilter(events: seq<Event>, key: RunKey)
    ensures RunText(events, key) == RunText(Filter(events, (e: Event) => InRun(e, key)), key)
  {
    if events != [] {
      var init, last := events[..|events| - 1], events[|events| - 1];
      var keep := (e: Event) => InRun(e, key);
      RunTextOfFilter(init, key);
      if InRun(last, key) {
        assert (Filter(init, keep) + [last])[..|Filter(init, keep)|] == Filter(init, keep);
      } else {
        assert Filter(init, keep) + [] == Filter(init, keep);
      }
    }
  }

  /** No text of a run is lost, doubled or moved by a merge, if the deltas of that run come
      in order; nothing is asked of other events. */
  lemma {:induction false} RunTextIsConserved(current: seq<Event>, incoming: seq<Event>, key: RunKey)
    requires LogOk(current) && FreshIds(current, incoming)
    requires Sorted(Filter(current + incoming, (e: Event) => InRun(e, key)), SeqOf)
    ensures RunText(Merge(current, incoming), key) == RunText(current, key) + RunText(incoming, key)
  {
    var keep := (e: Event) => InRun(e, key);
    var union := current + incoming;
    var sorted := Sort(union, SeqOf);
    FastPathIsSlowPath(current, incoming);
    CompactKeepsText([], sorted, key);
    RunTextOfFilter(sorted, key);
    SortKeepsOrder(union, SeqOf, keep);
    RunTextOfFilter(union, key);
    RunTextPlus(current, incoming, key);
  }

  // --------------------------------------------------------------- replays

  lemma {:induction false} UpsertPresent(events: seq<Event>, e: Event)
    requires DistinctIds(events) && e in events
    ensures Upsert(events, e) == events
  {
    if events[0].id == e.id {
      var i :| 0 <= i < |events| && events[i] == e;
      assert i > 0 ==> events[0].id != events[i].id;
    } else {
      UpsertPresent(events[1..], e);
    }
  }

  lemma {:induction false} UpsertAllPresent(events: seq<Event>, more: seq<Event>)
    requires DistinctIds(events) && forall e <- more :: e in events
    ensures UpsertAll(events, more) == events
  {
    if more != [] {
      UpsertAllPresent(events, more[..|more| - 1]);
      assert more[|more| - 1] in more;
      UpsertPresent(events, more[|more| - 1]);
    }
  }

  lemma {:induction false} PresentIsNotAppended(current: seq<Event>, incoming: seq<Event>)
    requires Sorted(current, SeqOf) && incoming != [] && incoming[0] in current
    ensures !AppendOnly(current, incoming)
  {
    var i :| 0 <= i < |current| && current[i] == incoming[0];
    assert i < |current| - 1 ==> SeqOf(current[i]) <= SeqOf(current[|current| - 1]);
  }

  /** Events that the log still holds as they are can be delivered again without effect. */
  lemma {:induction false} PresentEventsChangeNothing(current: seq<Event>, incoming: seq<Event>)
    requires LogOk(current) && forall e <- incoming :: e in current
    ensures Merge(current, incoming) == current
  {
    if incoming != [] {
      assert incoming[0] in incoming;
      PresentIsNotAppended(current, incoming);
      UpsertAllFresh([], current);
      assert [] + current == current;
      UpsertAllPresent(current, incoming);
      SortOfSorted(current, SeqOf);
      CompactOfCompacted(current);
    }
  }

  /** A delta that has been compacted away cannot: the log no longer knows its id, so that
      its text is taken twice; and repeating the last delta of a run drops the rest of it. */
  lemma {:induction false} CompactedDeltasMustNotComeBack()
    ensures var first := Event(1, 1, 0, None, Delta("a", None));
            var second := Event(2, 2, 0, None, Delta("b", None));
            var log := Merge([], [first, second]);
            && RunText(log, KeyOf(first)) == "ab"
            && RunText(Merge(log, [first]), KeyOf(first)) == "aab"
            && RunText(Merge(log, [second]), KeyOf(first)) == "b"
  {
    var first := Event(1, 1, 0, None, Delta("a", None));
    var second := Event(2, 2, 0, None, Delta("b", None));
    var both := Event(2, 2, 0, None, Delta("ab", None));
    FirstMerge(first, second, both);
    FirstComesBack(first, both);
    SecondComesBack(second, both);
    OneDelta(both, KeyOf(first));
    OneDelta(Event(2, 2, 0, None, Delta("aab", None)), KeyOf(first));
    OneDelta(second, KeyOf(first));
  }

  lemma {:induction false} FirstMerge(first: Event, second: Event, both: Event)
    requires first == Event(1, 1, 0, None, Delta("a", None)) && second == Event(2, 2, 0, None, Delta("b", None))
    requires both == Event(2, 2, 0, None, Delta("ab", None))
    ensures Merge([], [first, second]) == [both]
  {
    assert [first, second][..1] == [first] && [first][..0] == [];
    assert AppendAll([], [first]) == [first];
    assert Append([first], second) == [both] by { assert "a" + "b" == "ab"; }
  }

  lemma {:induction false} UpsertOne(e: Event)
    ensures UpsertAll([], [e]) == [e]
  {
    assert [e][..0] == [] && UpsertAll([], []) == [];
  }

  lemma {:induction false} SortOne(e: Event)
    ensures Sort([e], SeqOf) == [e] && Compact([e]) == [e]
  {
    assert [e][..0] == [] && Sort([], SeqOf) == [] && Insert([], e, SeqOf) == [e];
    assert AppendAll([], []) == [] && Append([], e) == [e];
  }

  lemma {:induction false} FirstComesBack(first: Event, both: Event)
    requires first == Event(1, 1, 0, None, Delta("a", None)) && both == Event(2, 2, 0, None, Delta("ab", None))
    ensures Merge([both], [first]) == [Event(2, 2, 0, None, Delta("aab", None))]
  {
    UpsertOne(both);
    UpsertTwo(both, first);
    SortTwo(both, first);
    assert [first, both][..1] == [first];
    SortOne(first);
    assert Append([first], both) == [Event(2, 2, 0, None, Delta("aab", None))] by { assert "a" + "ab" == "aab"; }
  }

  lemma {:induction false} UpsertTwo(a: Event, b: Event)
    requires a.id != b.id
    ensures UpsertAll([a], [b]) == [a, b]
  {
    assert [b][..0] == [] && [a][1..] == [];
    assert Upsert([a], b) == [a, b];
  }

  lemma {:induction false} SortTwo(a: Event, b: Event)
    requires b.seq' < a.seq'
    ensures Sort([a, b], SeqOf) == [b, a]
  {
    SortOne(a);
    assert [a, b][..1] == [a] && [a][..0] == [];
    assert Insert([], b, SeqOf) == [b];
    assert Insert([a], b, SeqOf) == [b, a];
  }

  lemma {:induction false} SecondComesBack(second: Event, both: Event)
    requires second == Event(2, 2, 0, None, Delta("b", None)) && both == Event(2, 2, 0, None, Delta("ab", None))
    ensures Merge([both], [second]) == [second]
  {
    UpsertOne(both);
    assert [second][..0] == [];
    assert Upsert([both], second) == [second];
    assert UpsertAll([both], [second]) == [second];
    SortOne(second);
  }

  lemma {:induction false} OneDelta(e: Event, key: RunKey)
    requires InRun(e, key)
    ensures RunText([e], key) == e.payload.text
  {
    assert [e][..0] == [];
  }
}
