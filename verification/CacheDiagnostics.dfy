/** Why a provider's prompt cache was not reused: the first place where two requests differ,
    and which of several differences is blamed. */
module CacheDiagnostics {
  import opened Prelude
  import opened StableSort

  datatype Segment = Segment(
    kind: string, name: Option<string>, source: string, contentHash: string, tokenEstimate: nat)

  datatype ContextItem = ContextItem(
    kind: string, role: string, authority: string, source: string, cacheScope: string,
    contentHash: string, tokenEstimate: nat)

  datatype Property = Property(name: string, valueHash: string)

  datatype Trace = Trace(
    promptCacheKeyHash: Option<string>,
    toolCatalogHash: Option<string>,
    configuration: seq<Property>,
    segments: seq<Segment>,
    previousResponseIdPresent: bool)

  datatype Change = Changed | Inserted | Removed | Configuration

  datatype Breakpoint = Breakpoint(
    kind: string,
    source: string,
    cacheScope: Option<string>,
    change: Change,
    tokenOffset: Option<nat>,
    previousTokens: Option<nat>,
    currentTokens: Option<nat>,
    name: Option<string>,
    affectedSegments: Option<nat>,
    anchorSource: Option<string>)

  // -------------------------------------------------------- wire segments

  predicate SegmentMatches(left: Segment, right: Segment) {
    left.kind == right.kind && left.name == right.name && left.contentHash == right.contentHash
  }

  function SegmentTokens(segments: seq<Segment>): nat {
    if segments == [] then 0 else SegmentTokens(segments[..|segments| - 1]) + segments[|segments| - 1].tokenEstimate
  }

  function SegmentBreakpoint(
    item: Segment, change: Change, offset: nat, previousTokens: Option<nat>, currentTokens: Option<nat>,
    affected: nat, anchorSource: Option<string>): Breakpoint
  {
    Breakpoint(item.kind, item.source, None, change, Some(offset), previousTokens, currentTokens,
               item.name, Some(affected), anchorSource)
  }

  /** `segments.findIndex(...)` for positions behind `index`: the nearest match. */
  function MatchAfter(segments: seq<Segment>, index: nat, item: Segment): (r: Option<nat>)
    ensures r.Some? ==> index < r.value < |segments| && SegmentMatches(segments[r.value], item)
                        && forall k | index < k < r.value :: !SegmentMatches(segments[k], item)
    ensures r.None? ==> forall k | index < k < |segments| :: !SegmentMatches(segments[k], item)
    decreases |segments| - index
  {
    if index + 1 >= |segments| then None
    else if SegmentMatches(segments[index + 1], item) then Some(index + 1)
    else MatchAfter(segments, index + 1, item)
  }

  /** What is reported when the first `n` segments match and there is a previous one left. */
  function BreakAt(previous: seq<Segment>, current: seq<Segment>, n: nat): Breakpoint
    requires n < |previous| && n <= |current|
  {
    var offset := SegmentTokens(current[..n]);
    if n == |current|
    then SegmentBreakpoint(previous[n], Removed, offset, Some(previous[n].tokenEstimate), None, |previous| - n, None)
    else
      var inCurrent := MatchAfter(current, n, previous[n]);
      if inCurrent.Some?
      then SegmentBreakpoint(current[n], Inserted, offset, None, Some(current[n].tokenEstimate),
                             inCurrent.value - n, Some(current[inCurrent.value].source))
      else
        var inPrevious := MatchAfter(previous, n, current[n]);
        if inPrevious.Some?
        then SegmentBreakpoint(previous[n], Removed, offset, Some(previous[n].tokenEstimate), None,
                               inPrevious.value - n, Some(current[n].source))
        else SegmentBreakpoint(current[n], Changed, offset, Some(previous[n].tokenEstimate),
                               Some(current[n].tokenEstimate), 1, None)
  }

  function ProviderBreakpoint(previous: seq<Segment>, current: seq<Segment>): Option<Breakpoint> {
    if previous == [] && current == [] then None
    else if previous == []
    then Some(SegmentBreakpoint(current[0], Inserted, 0, None, Some(current[0].tokenEstimate), |current|, None))
    else
      var n := PrefixLength(previous, current, SegmentMatches);
      if n == |previous| then None else Some(BreakAt(previous, current, n))
  }

  method FindMatchAfter(segments: seq<Segment>, index: nat, item: Segment) returns (r: int)
    requires index < |segments|
    ensures r == if MatchAfter(segments, index, item).Some? then MatchAfter(segments, index, item).value else -1
  {
    for i := 0 to |segments|
      invariant forall k | index < k < i :: !SegmentMatches(segments[k], item)
    {
      if i > index && SegmentMatches(segments[i], item) { return i; }
    }
    r := -1;
  }

  method MatchingSegments(previous: seq<Segment>, current: seq<Segment>) returns (index: nat, offset: nat)
    ensures index == PrefixLength(previous, current, SegmentMatches) && offset == SegmentTokens(current[..index])
  {
    index := 0;
    offset := 0;
    while index < |previous| && index < |current| && SegmentMatches(previous[index], current[index])
      invariant index <= |previous| && index <= |current|
      invariant forall k | 0 <= k < index :: SegmentMatches(previous[k], current[k])
      invariant offset == SegmentTokens(current[..index])
    {
      assert current[..index + 1][..index] == current[..index];
      offset := offset + current[index].tokenEstimate;
      index := index + 1;
    }
    PrefixIsUnique(previous, current, SegmentMatches, index);
  }

  method FindBreakAt(previous: seq<Segment>, current: seq<Segment>, index: nat, offset: nat) returns (r: Breakpoint)
    requires index < |previous| && index <= |current| && offset == SegmentTokens(current[..index])
    ensures r == BreakAt(previous, current, index)
  {
    var previousItem := previous[index];
    if index == |current| {
      return SegmentBreakpoint(previousItem, Removed, offset, Some(previousItem.tokenEstimate), None,
                               |previous| - index, None);
    }
    var currentItem := current[index];
    var inCurrent := FindMatchAfter(current, index, previousItem);
    if inCurrent > index {
      return SegmentBreakpoint(currentItem, Inserted, offset, None, Some(currentItem.tokenEstimate),
                               inCurrent - index, Some(current[inCurrent].source));
    }
    var inPrevious := FindMatchAfter(previous, index, currentItem);
    if inPrevious > index {
      return SegmentBreakpoint(previousItem, Removed, offset, Some(previousItem.tokenEstimate), None,
                               inPrevious - index, Some(currentItem.source));
    }
    r := SegmentBreakpoint(currentItem, Changed, offset, Some(previousItem.tokenEstimate),
                           Some(currentItem.tokenEstimate), 1, None);
  }

  method FindProviderBreakpoint(previous: seq<Segment>, current: seq<Segment>) returns (r: Option<Breakpoint>)
    ensures r == ProviderBreakpoint(previous, current)
  {
    if |previous| == 0 && |current| == 0 { return None; }
    if |previous| == 0 {
      return Some(SegmentBreakpoint(current[0], Inserted, 0, None, Some(current[0].tokenEstimate), |current|, None));
    }
    if |current| == 0 {
      return Some(SegmentBreakpoint(previous[0], Removed, 0, Some(previous[0].tokenEstimate), None, |previous|, None));
    }
    var index, offset := MatchingSegments(previous, current);
    if index == |previous| { return None; }
    var breakpoint := FindBreakAt(previous, current, index, offset);
    r := Some(breakpoint);
  }

  /** The previous request, segment by segment, begins the current one. */
  ghost predicate Begins<T>(previous: seq<T>, current: seq<T>, same: (T, T) -> bool) {
    |previous| <= |current| && forall i | 0 <= i < |previous| :: same(previous[i], current[i])
  }

  lemma {:induction false} BeginsByPrefix<T>(previous: seq<T>, current: seq<T>, same: (T, T) -> bool)
    ensures Begins(previous, current, same) <==> PrefixLength(previous, current, same) == |previous|
  {
    if Begins(previous, current, same) { PrefixIsUnique(previous, current, same, |previous|); }
  }

  /** There is no breakpoint exactly when the previous segments begin the current ones. The
      exception is an empty previous trace before one with segments. */
  lemma {:induction false} NoBreakpointExactly(previous: seq<Segment>, current: seq<Segment>)
    ensures ProviderBreakpoint(previous, current).None? <==>
            Begins(previous, current, SegmentMatches) && (previous == [] ==> current == [])
  {
    BeginsByPrefix(previous, current, SegmentMatches);
  }

  /** The exception at an input: nothing before, one segment now. */
  lemma {:induction false} EmptyTraceIsABreak(segment: Segment)
    ensures Begins([], [segment], SegmentMatches) && ProviderBreakpoint([], [segment]).Some?
  {
  }

  /** The segments agree up to `n` and no further. */
  ghost predicate BreaksAt<T>(previous: seq<T>, current: seq<T>, same: (T, T) -> bool, n: nat) {
    && n < |previous| && n <= |current| && (forall i | 0 <= i < n :: same(previous[i], current[i]))
    && (n < |current| ==> !same(previous[n], current[n]))
  }

  /** The breakpoint reported for the one place where the traces part: its offset is what the
      matching segments before it hold, and its kind and count say how the traces meet again.
      An insertion or removal counts the segments up to the nearest re-match; a change means
      that there is none. */
  lemma {:induction false} BreakpointIs(previous: seq<Segment>, current: seq<Segment>, n: nat)
    requires BreaksAt(previous, current, SegmentMatches, n)
    ensures ProviderBreakpoint(previous, current).Some?
    ensures var b := ProviderBreakpoint(previous, current).value;
            && b.tokenOffset == Some(SegmentTokens(current[..n])) && b.affectedSegments.Some?
              && b.affectedSegments.value > 0
            && var d := b.affectedSegments.value;
               match b.change
               case Inserted =>
                 && n + d < |current| && SegmentMatches(previous[n], current[n + d])
                 && forall k | n < k < n + d :: !SegmentMatches(previous[n], current[k])
               case Removed =>
                 if n == |current| then d == |previous| - n
                 else
                   && n + d < |previous| && SegmentMatches(previous[n + d], current[n])
                   && (forall k | n < k < n + d :: !SegmentMatches(previous[k], current[n]))
                   && (forall k | n < k < |current| :: !SegmentMatches(previous[n], current[k]))
               case Changed =>
                 && n < |current| && d == 1
                 && (forall k | n < k < |current| :: !SegmentMatches(previous[n], current[k]))
                 && (forall k | n < k < |previous| :: !SegmentMatches(previous[k], current[n]))
               case Configuration => false
  {
    PrefixIsUnique(previous, current, SegmentMatches, n);
  }

  /** `s` without the `d` elements from `n` on. */
  function Without<T>(s: seq<T>, n: nat, d: nat): seq<T>
    requires n + d <= |s|
  {
    s[..n] + s[n + d..]
  }

  lemma {:induction false} WithoutIndex<T>(s: seq<T>, n: nat, d: nat)
    requires n + d < |s|
    ensures |Without(s, n, d)| > n && Without(s, n, d)[n] == s[n + d]
    ensures forall i | 0 <= i < n :: Without(s, n, d)[i] == s[i]
  {
  }

  /** Taking out what is reported as inserted brings the traces together: they agree further
      than before. */
  lemma {:induction false} InsertionRepairs(previous: seq<Segment>, current: seq<Segment>, n: nat, d: nat)
    requires BreaksAt(previous, current, SegmentMatches, n)
    requires var b := ProviderBreakpoint(previous, current);
             b.Some? && b.value.change.Inserted? && b.value.affectedSegments == Some(d)
    ensures n + d < |current| && PrefixLength(previous, Without(current, n, d), SegmentMatches) > n
  {
    BreakpointIs(previous, current, n);
    WithoutIndex(current, n, d);
    PrefixIsLongest(previous, Without(current, n, d), SegmentMatches, n + 1);
  }

  /** So does taking out what is reported as removed; at the end of the current trace it
      leaves nothing that differs. */
  lemma {:induction false} RemovalRepairs(previous: seq<Segment>, current: seq<Segment>, n: nat, d: nat)
    requires BreaksAt(previous, current, SegmentMatches, n)
    requires var b := ProviderBreakpoint(previous, current);
             b.Some? && b.value.change.Removed? && b.value.affectedSegments == Some(d)
    ensures n + d <= |previous|
    ensures n < |current| ==> PrefixLength(Without(previous, n, d), current, SegmentMatches) > n
    ensures n == |current| ==> Begins(Without(previous, n, d), current, SegmentMatches)
  {
    BreakpointIs(previous, current, n);
    if n < |current| {
      WithoutIndex(previous, n, d);
      PrefixIsLongest(Without(previous, n, d), current, SegmentMatches, n + 1);
    }
  }

  // -------------------------------------------------------- configuration

  function Values(properties: seq<Property>): map<string, string> {
    if properties == [] then map[]
    else
      var last := properties[|properties| - 1];
      Values(properties[..|properties| - 1])[last.name := last.valueHash]
  }

  function Lookup(values: map<string, string>, name: string): Option<string> {
    if name in values then Some(values[name]) else None
  }

  /** The names, each once. */
  function Names(properties: seq<Property>): seq<string> {
    if properties == [] then []
    else
      var before, name := Names(properties[..|properties| - 1]), properties[|properties| - 1].name;
      if name in before then before else before + [name]
  }

  function ConfigurationBreakpoint(kind: string, source: string, change: Change): Breakpoint {
    Breakpoint(kind, source, None, change, None, None, None, None, None, None)
  }

  function ChangeOf(before: Option<string>, after: Option<string>): Change {
    if before.None? then Inserted else if after.None? then Removed else Changed
  }

  function FirstChange(
      names: seq<string>, before: map<string, string>, after: map<string, string>): Option<Breakpoint> {
    if names == [] then None
    else if Lookup(before, names[0]) == Lookup(after, names[0]) then FirstChange(names[1..], before, after)
    else Some(ConfigurationBreakpoint("request_configuration", names[0],
                                      ChangeOf(Lookup(before, names[0]), Lookup(after, names[0]))))
  }

  /** `rank` places the names in the order of the program's `sort()`. */
  function ConfigurationChange(
      previous: seq<Property>, current: seq<Property>, rank: string -> int): Option<Breakpoint> {
    FirstChange(Sort(Names(previous + current), rank), Values(previous), Values(current))
  }

  method FindConfigurationChange(previous: seq<Property>, current: seq<Property>, rank: string -> int)
      returns (r: Option<Breakpoint>)
    ensures r == ConfigurationChange(previous, current, rank)
  {
    var previousValues, currentValues := Values(previous), Values(current);
    var names := Sort(Names(previous + current), rank);
    assert names[0..] == names;
    for i := 0 to |names|
      invariant FirstChange(names, previousValues, currentValues)
                == FirstChange(names[i..], previousValues, currentValues)
    {
      var before, after := Lookup(previousValues, names[i]), Lookup(currentValues, names[i]);
      assert names[i..][1..] == names[i + 1..];
      if before == after { continue; }
      return Some(ConfigurationBreakpoint("request_configuration", names[i], ChangeOf(before, after)));
    }
    r := None;
  }

  lemma {:induction false} NamesAre(properties: seq<Property>)
    ensures forall name :: name in Names(properties) <==> name in Values(properties)
  {
    if properties != [] { NamesAre(properties[..|properties| - 1]); }
  }

  lemma {:induction false} ValuesOfBoth(a: seq<Property>, b: seq<Property>)
    ensures Values(a + b) == Values(a) + Values(b)
    decreases |b|
  {
    if b == [] {
      assert a + b == a;
    } else {
      assert (a + b)[..|a + b| - 1] == a + b[..|b| - 1];
      ValuesOfBoth(a, b[..|b| - 1]);
    }
  }

  lemma {:induction false} FirstChangeIs(
      names: seq<string>, before: map<string, string>, after: map<string, string>, rank: string -> int)
    requires Sorted(names, rank)
    ensures var r := FirstChange(names, before, after);
            if r.None? then forall name <- names :: Lookup(before, name) == Lookup(after, name)
            else
              var name := r.value.source;
              && name in names && Lookup(before, name) != Lookup(after, name)
              && r.value == ConfigurationBreakpoint("request_configuration", name, ChangeOf(Lookup(before, name),
                Lookup(after, name)))
              && forall other <- names | rank(other) < rank(name) :: Lookup(before, other) == Lookup(after, other)
  {
    if names != [] {
      assert names == [names[0]] + names[1..];
      FirstChangeIs(names[1..], before, after, rank);
    }
  }

  /** No change is reported exactly when the two configurations hold the same values; the
      one reported is the first in order, and its kind says on which side it is missing. */
  lemma {:induction false} ConfigurationChangeIs(previous: seq<Property>, current: seq<Property>, rank: string -> int)
    ensures var r := ConfigurationChange(previous, current, rank);
            r.None? <==> Values(previous) == Values(current)
    ensures var r := ConfigurationChange(previous, current, rank);
            r.Some? ==>
              var name := r.value.source;
              var before, after := Lookup(Values(previous), name), Lookup(Values(current), name);
              && before != after && (forall other: string | rank(other) < rank(name) ::
                   Lookup(Values(previous), other) == Lookup(Values(current), other))
              && (r.value.change.Inserted? <==> before.None?) && (r.value.change.Removed? <==> after.None?)
  {
    var names := Sort(Names(previous + current), rank);
    SortSorts(Names(previous + current), rank);
    FirstChangeIs(names, Values(previous), Values(current), rank);
    NamesAre(previous + current);
    ValuesOfBoth(previous, current);
    forall name: string ensures name in names <==> name in Values(previous) || name in Values(current) {
      SortMember(Names(previous + current), rank, name);
    }
    LookupsAgree(Values(previous), Values(current));
  }

  lemma {:induction false} LookupsAgree(a: map<string, string>, b: map<string, string>)
    ensures a == b <==> forall name :: (name in a || name in b) ==> Lookup(a, name) == Lookup(b, name)
  {
    if forall name :: (name in a || name in b) ==> Lookup(a, name) == Lookup(b, name) {
      forall name ensures name in a <==> name in b {
        assert (name in a || name in b) ==> Lookup(a, name) == Lookup(b, name);
      }
      forall name | name in a ensures a[name] == b[name] {
        assert Lookup(a, name) == Lookup(b, name);
      }
    }
  }

  // --------------------------------------------------------- context items

  predicate ContextItemMatches(left: ContextItem, right: ContextItem) {
    && left.kind == right.kind && left.role == right.role && left.authority == right.authority
    && left.source == right.source && left.cacheScope == right.cacheScope && left.contentHash == right.contentHash
  }

  function ContextTokens(items: seq<ContextItem>): nat {
    if items == [] then 0 else ContextTokens(items[..|items| - 1]) + items[|items| - 1].tokenEstimate
  }

  function ItemBreakpoint(
      item: ContextItem, change: Change, offset: nat, previousTokens: Option<nat>,
      currentTokens: Option<nat>): Breakpoint {
    Breakpoint(item.kind, item.source, Some(item.cacheScope), change, Some(offset), previousTokens, currentTokens,
               None, None, None)
  }

  function ContextBreakAt(previous: seq<ContextItem>, current: seq<ContextItem>, n: nat): Breakpoint
    requires n < |previous| && n <= |current|
  {
    var offset := ContextTokens(current[..n]);
    if n == |current| then ItemBreakpoint(previous[n], Removed, offset, Some(previous[n].tokenEstimate), None)
    else if n + 1 < |current| && ContextItemMatches(previous[n], current[n + 1])
    then ItemBreakpoint(current[n], Inserted, offset, None, Some(current[n].tokenEstimate))
    else if n + 1 < |previous| && ContextItemMatches(previous[n + 1], current[n])
    then ItemBreakpoint(previous[n], Removed, offset, Some(previous[n].tokenEstimate), None)
    else ItemBreakpoint(current[n], Changed, offset, Some(previous[n].tokenEstimate), Some(current[n].tokenEstimate))
  }

  function ContextBreakpoint(previous: seq<ContextItem>, current: seq<ContextItem>): Option<Breakpoint> {
    if previous == [] || current == [] then None
    else
      var n := PrefixLength(previous, current, ContextItemMatches);
      if n == |previous| then None else Some(ContextBreakAt(previous, current, n))
  }

  method MatchingItems(previous: seq<ContextItem>, current: seq<ContextItem>) returns (index: nat, offset: nat)
    ensures index == PrefixLength(previous, current, ContextItemMatches) && offset == ContextTokens(current[..index])
  {
    index := 0;
    offset := 0;
    while index < |previous| && index < |current| && ContextItemMatches(previous[index], current[index])
      invariant index <= |previous| && index <= |current|
      invariant forall k | 0 <= k < index :: ContextItemMatches(previous[k], current[k])
      invariant offset == ContextTokens(current[..index])
    {
      assert current[..index + 1][..index] == current[..index];
      offset := offset + current[index].tokenEstimate;
      index := index + 1;
    }
    PrefixIsUnique(previous, current, ContextItemMatches, index);
  }

  method FindContextBreakpoint(previous: seq<ContextItem>, current: seq<ContextItem>) returns (r: Option<Breakpoint>)
    ensures r == ContextBreakpoint(previous, current)
  {
    if |previous| == 0 || |current| == 0 { return None; }
    var index, offset := MatchingItems(previous, current);
    if index == |previous| { return None; }
    var previousItem := previous[index];
    if index == |current| {
      return Some(ItemBreakpoint(previousItem, Removed, offset, Some(previousItem.tokenEstimate), None));
    }
    var currentItem := current[index];
    if index + 1 < |current| && ContextItemMatches(previousItem, current[index + 1]) {
      return Some(ItemBreakpoint(currentItem, Inserted, offset, None, Some(currentItem.tokenEstimate)));
    }
    if index + 1 < |previous| && ContextItemMatches(previous[index + 1], currentItem) {
      return Some(ItemBreakpoint(previousItem, Removed, offset, Some(previousItem.tokenEstimate), None));
    }
    r := Some(ItemBreakpoint(currentItem, Changed, offset,
                             Some(previousItem.tokenEstimate), Some(currentItem.tokenEstimate)));
  }

  /** The content change reported for the one place where the items part: its offset is what
      the matching items before it hold. It is an insertion exactly when the previous item
      follows directly; otherwise a removal exactly when nothing is left or the current item
      is the next of the previous ones. */
  lemma {:induction false} ContextBreakpointIs(previous: seq<ContextItem>, current: seq<ContextItem>, n: nat)
    requires BreaksAt(previous, current, ContextItemMatches, n) && current != []
    ensures ContextBreakpoint(previous, current).Some?
    ensures var b := ContextBreakpoint(previous, current).value;
            var again := n + 1 < |current| && ContextItemMatches(previous[n], current[n + 1]);
            var dropped := n == |current| || (n + 1 < |previous| && ContextItemMatches(previous[n + 1], current[n]));
            && b.tokenOffset == Some(ContextTokens(current[..n]))
            && (b.change.Inserted? <==> again)
            && (b.change.Removed? <==> !again && dropped)
            && (b.change.Changed? <==> !again && !dropped)
            && (b.previousTokens.None? <==> b.change.Inserted?) && (b.currentTokens.None? <==> b.change.Removed?)
            && b.source == if b.change.Removed? then previous[n].source else current[n].source
  {
    PrefixIsUnique(previous, current, ContextItemMatches, n);
  }

  /** No content change is reported exactly when the previous items begin the current ones,
      or one of the two requests has no items to compare. */
  lemma {:induction false} NoContextBreakpointExactly(previous: seq<ContextItem>, current: seq<ContextItem>)
    ensures ContextBreakpoint(previous, current).None? <==>
            current == [] || Begins(previous, current, ContextItemMatches)
  {
    BeginsByPrefix(previous, current, ContextItemMatches);
  }

  // -------------------------------------------------------------- diagnosis

  datatype Observation = Observation(
    contextItems: seq<ContextItem>,
    promptCacheKey: Option<string>,
    previousResponseId: Option<string>,
    systemPrompt: Option<string>,
    toolCatalogSignature: Option<string>,
    trace: Option<Trace>)

  datatype Call = Call(
    id: string,
    providerId: Option<string>,
    model: Option<string>,
    openAi: bool,
    inputTokens: nat,
    cachedInputTokens: nat,
    cacheReadTokensReported: bool,
    observation: Observation)

  datatype State = Reused | Degraded | Broken | Unverified

  datatype Reason =
    | WirePrefixChanged | ContentChanged | ToolCatalogChanged | SystemPromptChanged | CacheKeyChanged
    | RequestConfigurationChanged | ModelChanged | ProviderChanged | InputBelowMinimum | StatefulContext
    | OperationalMiss | DiagnosticDataMissing | CacheHit | NoBaseline | UsageUnreported

  datatype Confidence = High | Medium | Low

  datatype Diagnostic = Diagnostic(
    state: State,
    reason: Reason,
    confidence: Confidence,
    previousRequestId: Option<string>,
    previousCachedInputTokens: Option<nat>,
    currentCachedInputTokens: nat,
    lostCachedTokens: nat,
    breakpoint: Option<Breakpoint>)

  predicate ChangedKnown(previous: Option<string>, current: Option<string>) {
    previous.Some? && current.Some? && previous != current
  }

  predicate ChangedOptional(previous: Option<string>, current: Option<string>) {
    previous != current && (previous.Some? || current.Some?)
  }

  predicate Truthy(value: Option<string>) {
    value.Some? && value.value != ""
  }

  datatype Blame = Blame(reason: Reason, confidence: Confidence, breakpoint: Option<Breakpoint>)

  function Settings(kind: string, source: string): Option<Breakpoint> {
    Some(ConfigurationBreakpoint(kind, source, Configuration))
  }

  /** What two wire traces give to blame. */
  function BlameWire(previous: Trace, current: Trace, rank: string -> int): Option<Blame> {
    if ChangedOptional(previous.promptCacheKeyHash, current.promptCacheKeyHash)
    then Some(Blame(CacheKeyChanged, High, Settings("cache_key", "prompt_cache_key")))
    else if ChangedOptional(previous.toolCatalogHash, current.toolCatalogHash)
    then Some(Blame(ToolCatalogChanged, High, Settings("tool_catalog", "tools")))
    else
      var change := ConfigurationChange(previous.configuration, current.configuration, rank);
      if change.Some? then Some(Blame(RequestConfigurationChanged, High, change))
      else
        var wire := ProviderBreakpoint(previous.segments, current.segments);
        if wire.Some? then Some(Blame(WirePrefixChanged, High, wire)) else None
  }

  function BlameObserved(previous: Observation, current: Observation): Blame {
    if ChangedOptional(previous.promptCacheKey, current.promptCacheKey)
    then Blame(CacheKeyChanged, High, Settings("cache_key", "prompt_cache_key"))
    else if ChangedKnown(previous.toolCatalogSignature, current.toolCatalogSignature)
    then Blame(ToolCatalogChanged, High, Settings("tool_catalog", "tool_candidates"))
    else
      var content := ContextBreakpoint(previous.contextItems, current.contextItems);
      if content.Some? then Blame(ContentChanged, Medium, content)
      else if ChangedKnown(previous.systemPrompt, current.systemPrompt)
      then Blame(SystemPromptChanged, High, Settings("system_prompt", "system_prompt"))
      else if (previous.trace.Some? && previous.trace.value.previousResponseIdPresent)
              || (current.trace.Some? && current.trace.value.previousResponseIdPresent)
              || Truthy(previous.previousResponseId) || Truthy(current.previousResponseId)
      then Blame(StatefulContext, Low, None)
      else if previous.trace.None? || current.trace.None?
      then
        if |previous.contextItems| > 0 && |current.contextItems| > 0 then Blame(OperationalMiss, Low, None)
        else Blame(DiagnosticDataMissing, Low, None)
      else Blame(OperationalMiss, Medium, None)
  }

  function BlameFor(previous: Call, current: Call, rank: string -> int): Blame {
    if current.openAi && current.inputTokens < 1024
      then Blame(InputBelowMinimum, High, Settings("input", "input_tokens"))
    else if ChangedKnown(previous.providerId, current.providerId)
    then Blame(ProviderChanged, High, Settings("provider", current.providerId.value))
    else if ChangedKnown(previous.model, current.model)
    then Blame(ModelChanged, High, Settings("model", current.model.value))
    else
      var a, b := previous.observation, current.observation;
      var wire := if a.trace.Some? && b.trace.Some? then BlameWire(a.trace.value, b.trace.value, rank) else None;
      if wire.Some? then wire.value else BlameObserved(a, b)
  }

  function LostTokens(previous: Call, current: Call): nat {
    Max(0, Min(previous.cachedInputTokens, current.inputTokens) - current.cachedInputTokens)
  }

  function Diagnose(current: Call, previous: Option<Call>, rank: string -> int): Diagnostic {
    var id := if previous.Some? then Some(previous.value.id) else None;
    var cached := if previous.Some? then Some(previous.value.cachedInputTokens) else None;
    var now := current.cachedInputTokens;
    if !current.cacheReadTokensReported then Diagnostic(Unverified, UsageUnreported, Low, id, cached, now, 0, None)
    else if previous.None? || previous.value.cachedInputTokens == 0
    then
      if now > 0 then Diagnostic(Reused, CacheHit, High, id, cached, now, 0, None)
      else Diagnostic(Unverified, NoBaseline, Low, id, cached, now, 0, None)
    else
      var lost := LostTokens(previous.value, current);
      if lost == 0 then Diagnostic(Reused, CacheHit, High, id, cached, now, 0, None)
      else
        var blame := BlameFor(previous.value, current, rank);
        Diagnostic(if now == 0 then Broken else Degraded, blame.reason, blame.confidence, id, cached, now, lost,
                   blame.breakpoint)
  }

  /** The loss lies between nothing and what was cached before, and is positive exactly for
      the two states that report one. */
  lemma {:induction false} LossIsBounded(current: Call, previous: Option<Call>, rank: string -> int)
    ensures var d := Diagnose(current, previous, rank);
            && 0 <= d.lostCachedTokens <= (if previous.Some? then previous.value.cachedInputTokens else 0)
            && d.lostCachedTokens + current.cachedInputTokens <= Max(current.inputTokens, current.cachedInputTokens)
            && (d.lostCachedTokens > 0 <==> d.state.Broken? || d.state.Degraded?)
            && (d.state.Broken? ==> current.cachedInputTokens == 0)
            && (d.reason.CacheHit? <==> d.state.Reused?)
  {
  }

  /** The two requests have the same prompt cache prefix as far as the wire traces tell. */
  ghost predicate SameWire(previous: Trace, current: Trace) {
    && previous.promptCacheKeyHash == current.promptCacheKeyHash
    && previous.toolCatalogHash == current.toolCatalogHash
    && Values(previous.configuration) == Values(current.configuration)
    && Begins(previous.segments, current.segments, SegmentMatches)
    && (previous.segments == [] ==> current.segments == [])
  }

  ghost predicate SameObserved(previous: Observation, current: Observation) {
    && previous.promptCacheKey == current.promptCacheKey
    && !ChangedKnown(previous.toolCatalogSignature, current.toolCatalogSignature)
    && (current.contextItems == [] || Begins(previous.contextItems, current.contextItems, ContextItemMatches))
    && !ChangedKnown(previous.systemPrompt, current.systemPrompt)
  }

  ghost predicate Stateful(o: Observation) {
    (o.trace.Some? && o.trace.value.previousResponseIdPresent) || Truthy(o.previousResponseId)
  }

  lemma {:induction false} WireIsBlamedExactly(previous: Trace, current: Trace, rank: string -> int)
    ensures BlameWire(previous, current, rank).None? <==> SameWire(previous, current)
  {
    ConfigurationChangeIs(previous.configuration, current.configuration, rank);
    NoBreakpointExactly(previous.segments, current.segments);
  }

  /** Nothing that is looked at before the traces explains the loss. */
  predicate SameEndpoint(previous: Call, current: Call) {
    && !(current.openAi && current.inputTokens < 1024)
    && !ChangedKnown(previous.providerId, current.providerId) && !ChangedKnown(previous.model, current.model)
  }

  lemma {:induction false} DiagnoseBlames(current: Call, previous: Call, rank: string -> int)
    requires current.cacheReadTokensReported && LostTokens(previous, current) > 0
    ensures var d := Diagnose(current, Some(previous), rank);
            Blame(d.reason, d.confidence, d.breakpoint) == BlameFor(previous, current, rank)
  {
  }

  lemma {:induction false} ObservedMissExactly(a: Observation, b: Observation)
    ensures var blame := BlameObserved(a, b);
            blame.reason == OperationalMiss && blame.confidence == Medium <==>
            a.trace.Some? && b.trace.Some? && SameObserved(a, b) && !Stateful(a) && !Stateful(b)
    ensures BlameObserved(a, b).reason != WirePrefixChanged
  {
    NoContextBreakpointExactly(a.contextItems, b.contextItems);
  }

  lemma {:induction false} WireIsNoMiss(a: Trace, b: Trace, rank: string -> int)
    ensures BlameWire(a, b, rank).Some? ==> BlameWire(a, b, rank).value.reason != OperationalMiss
  {
  }

  /** A loss is put down to the provider's operation, with both traces at hand, exactly when
      nothing that could be compared explains it. */
  lemma {:induction false} OperationalMissExactly(current: Call, previous: Call, rank: string -> int)
    requires current.cacheReadTokensReported && LostTokens(previous, current) > 0
    ensures var d := Diagnose(current, Some(previous), rank);
            var a, b := previous.observation, current.observation;
            d.reason == OperationalMiss && d.confidence == Medium <==>
            && SameEndpoint(previous, current)
            && a.trace.Some? && b.trace.Some? && SameWire(a.trace.value, b.trace.value)
            && SameObserved(a, b) && !Stateful(a) && !Stateful(b)
  {
    var a, b := previous.observation, current.observation;
    DiagnoseBlames(current, previous, rank);
    if a.trace.Some? && b.trace.Some? {
      WireIsBlamedExactly(a.trace.value, b.trace.value, rank);
      WireIsNoMiss(a.trace.value, b.trace.value, rank);
    }
    ObservedMissExactly(a, b);
  }

  /** The settings that stand before the segments are the same. */
  ghost predicate SameSettings(previous: Trace, current: Trace) {
    && previous.promptCacheKeyHash == current.promptCacheKeyHash
    && previous.toolCatalogHash == current.toolCatalogHash
    && Values(previous.configuration) == Values(current.configuration)
  }

  lemma {:induction false} WireReasonExactly(a: Trace, b: Trace, rank: string -> int)
    ensures var blame := BlameWire(a, b, rank);
            blame.Some? && blame.value.reason == WirePrefixChanged <==>
            SameSettings(a, b)
            && !(Begins(a.segments, b.segments, SegmentMatches) && (a.segments == [] ==> b.segments == []))
  {
    ConfigurationChangeIs(a.configuration, b.configuration, rank);
    NoBreakpointExactly(a.segments, b.segments);
  }

  /** The wire prefix is blamed exactly when the traces part somewhere and nothing that
      stands before the segments has changed. */
  lemma {:induction false} WirePrefixExactly(current: Call, previous: Call, rank: string -> int)
    requires current.cacheReadTokensReported && LostTokens(previous, current) > 0
    ensures var d := Diagnose(current, Some(previous), rank);
            var a, b := previous.observation.trace, current.observation.trace;
            d.reason == WirePrefixChanged <==>
            && SameEndpoint(previous, current) && a.Some? && b.Some? && SameSettings(a.value, b.value)
            && !(Begins(a.value.segments, b.value.segments, SegmentMatches) && (a.value.segments == []
              ==> b.value.segments == []))
  {
    var a, b := previous.observation.trace, current.observation.trace;
    DiagnoseBlames(current, previous, rank);
    if a.Some? && b.Some? { WireReasonExactly(a.value, b.value, rank); }
    ObservedMissExactly(previous.observation, current.observation);
  }

  /** Reasons that are no difference between the requests. */
  predicate NoDifference(reason: Reason) {
    reason in {OperationalMiss, StatefulContext, DiagnosticDataMissing, CacheHit, NoBaseline, UsageUnreported}
  }

  lemma {:induction false} WireBlamesDifferences(previous: Trace, current: Trace, rank: string -> int)
    ensures var blame := BlameWire(previous, current, rank);
            blame.Some? ==> blame.value.breakpoint.Some? && !NoDifference(blame.value.reason)
  {
  }

  lemma {:induction false} ObservedBlame(previous: Observation, current: Observation)
    ensures var blame := BlameObserved(previous, current);
            blame.breakpoint.None? <==> NoDifference(blame.reason)
  {
  }

  /** A breakpoint is named exactly for the reasons that are differences. */
  lemma {:induction false} BreakpointsAreDifferences(current: Call, previous: Option<Call>, rank: string -> int)
    ensures var d := Diagnose(current, previous, rank); d.breakpoint.None? <==> NoDifference(d.reason)
  {
    if previous.Some? {
      var a, b := previous.value.observation, current.observation;
      if a.trace.Some? && b.trace.Some? { WireBlamesDifferences(a.trace.value, b.trace.value, rank); }
      ObservedBlame(a, b);
    }
  }
}
