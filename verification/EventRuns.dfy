/** Which events a merge joins, told from their fields: the neighbouring deltas of one
    thread, turn and provider attempt become one event, and no others do. */
module EventRuns {
  import opened Prelude
  import opened StableSort
  import opened EventMerge

  /** Two deltas of the same thread, turn and provider attempt. */
  ghost predicate OneRun(a: Event, b: Event) {
    && a.payload.Delta? && b.payload.Delta?
    && a.threadId == b.threadId && a.turnId == b.turnId && a.payload.attempt == b.payload.attempt
  }

  ghost predicate NoRunApart(log: seq<Event>) {
    forall i | 0 < i < |log| :: !OneRun(log[i - 1], log[i])
  }

  /** An event joins the end of the log exactly when both are of one run. Then it keeps all
      that it has, and its text comes behind the text that was there. */
  lemma {:induction false} AppendIs(log: seq<Event>, e: Event)
    ensures var last := |log| - 1;
            if log != [] && OneRun(log[last], e)
            then Append(log, e) == log[..last]
              + [Event(e.id, e.seq', e.threadId, e.turnId,
                       Delta(log[last].payload.text + e.payload.text, e.payload.attempt))]
            else Append(log, e) == log + [e]
  {
  }

  lemma {:induction false} AppendLeavesNoneApart(log: seq<Event>, e: Event)
    requires NoRunApart(log)
    ensures NoRunApart(Append(log, e))
  {
    AppendIs(log, e);
  }

  lemma {:induction false} AppendAllLeavesNoneApart(log: seq<Event>, events: seq<Event>)
    requires NoRunApart(log)
    ensures NoRunApart(AppendAll(log, events))
  {
    if events != [] {
      var init, last := events[..|events| - 1], events[|events| - 1];
      AppendAllLeavesNoneApart(log, init);
      AppendLeavesNoneApart(AppendAll(log, init), last);
    }
  }

  /** No two neighbours in the merged log are of one run, whichever path was taken. */
  lemma {:induction false} NoRunIsLeftApart(current: seq<Event>, incoming: seq<Event>)
    requires NoRunApart(current)
    ensures NoRunApart(Merge(current, incoming))
  {
    if incoming != [] {
      if AppendOnly(current, incoming) {
        AppendAllLeavesNoneApart(current, incoming);
      } else {
        AppendAllLeavesNoneApart([], Sort(UpsertAll(UpsertAll([], current), incoming), SeqOf));
      }
    }
  }

  /** Two events in order are merged into one exactly when they are of one run. */
  lemma {:induction false} TwoBecomeOneExactly(a: Event, b: Event)
    requires a.seq' < b.seq'
    ensures Merge([], [a, b]) == if OneRun(a, b)
                                 then [b.(payload := b.payload.(text := a.payload.text + b.payload.text))] else [a, b]
  {
    var two := [a, b];
    assert two[..1] == [a] && two[..1][..0] == [];
    assert AppendAll([], [a]) == Append(AppendAll([], [a][..0]), a) == [a];
    assert AppendAll([], two) == Append(AppendAll([], two[..1]), b);
    AppendIs([a], b);
    assert [a][..0] == [];
  }

  // -------------------------------------------------------------- whole runs

  ghost predicate IsRun(run: seq<Event>) {
    run != [] && forall i | 0 < i < |run| :: OneRun(run[i - 1], run[i])
  }

  function TextsOf(run: seq<Event>): string {
    if run == [] then ""
    else TextsOf(run[..|run| - 1]) + if run[|run| - 1].payload.Delta? then run[|run| - 1].payload.text else ""
  }

  /** The last event of a run with the text of all. */
  function Joined(run: seq<Event>): Event
    requires run != []
  {
    var last := run[|run| - 1];
    if last.payload.Delta? then last.(payload := last.payload.(text := TextsOf(run))) else last
  }

  lemma {:induction false} SingleIsJoined(x: Event)
    ensures Compact([x]) == [x] && Joined([x]) == x
  {
    assert [x][..0] == [] && TextsOf([]) == "" && AppendAll([], []) == [];
    assert Compact([x]) == Append(AppendAll([], [x][..0]), x);
    if x.payload.Delta? { assert "" + x.payload.text == x.payload.text; }
  }

  lemma {:induction false} RunIsJoined(run: seq<Event>)
    requires IsRun(run)
    ensures Compact(run) == [Joined(run)]
  {
    var init, last := run[..|run| - 1], run[|run| - 1];
    if init == [] {
      assert run == [last];
      SingleIsJoined(last);
    } else {
      assert forall i | 0 < i < |init| :: OneRun(run[i - 1], run[i]);
      RunIsJoined(init);
      assert OneRun(init[|init| - 1], last);
      AppendIs([Joined(init)], last);
      assert [Joined(init)][..0] == [];
    }
  }

  lemma {:induction false} AppendBehind(before: seq<Event>, log: seq<Event>, e: Event)
    requires log != []
    ensures Append(before + log, e) == before + Append(log, e)
  {
    var whole, m := before + log, |log| - 1;
    assert whole[|whole| - 1] == log[m] && whole[..|whole| - 1] == before + log[..m];
    AppendIs(whole, e);
    AppendIs(log, e);
    if OneRun(log[m], e) {
      Regroup3(before, log[..m], [e.(payload := e.payload.(text := log[m].payload.text + e.payload.text))]);
    } else {
      Regroup3(before, log, [e]);
    }
  }

  lemma {:induction false} CompactBehind(x: Event, rest: seq<Event>)
    requires rest != [] ==> !OneRun(x, rest[0])
    ensures AppendAll([x], rest) == [x] + Compact(rest)
  {
    if rest != [] {
      var init, last := rest[..|rest| - 1], rest[|rest| - 1];
      CompactBehind(x, init);
      assert Compact(rest) == Append(Compact(init), last);
      if init == [] {
        AppendIs([x], last);
        AppendIs([], last);
        assert [] + [last] == [last] && [x] + [] == [x];
      } else {
        CompactIsNotEmpty(init);
        AppendBehind([x], Compact(init), last);
      }
    } else {
      assert [x] + [] == [x];
    }
  }

  lemma {:induction false} CompactIsNotEmpty(events: seq<Event>)
    requires events != []
    ensures Compact(events) != []
  {
    AppendIs(Compact(events[..|events| - 1]), events[|events| - 1]);
  }

  lemma {:induction false} JoinedGoesOn(run: seq<Event>, next: Event)
    requires IsRun(run)
    ensures OneRun(Joined(run), next) <==> OneRun(run[|run| - 1], next)
  {
  }

  /** Compacting goes run by run: a run that does not go on becomes one event, and what
      follows is compacted by itself. */
  lemma {:induction false} CompactRunByRun(run: seq<Event>, rest: seq<Event>)
    requires IsRun(run) && (rest != [] ==> !OneRun(run[|run| - 1], rest[0]))
    ensures Compact(run + rest) == [Joined(run)] + Compact(rest)
  {
    AppendAllPlus([], run, rest);
    RunIsJoined(run);
    if rest != [] { JoinedGoesOn(run, rest[0]); }
    CompactBehind(Joined(run), rest);
  }
}
