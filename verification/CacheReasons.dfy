/** Every reason that a cache diagnosis can give, and exactly when it gives it. The checks
    have an order: what stands before the wire traces, the traces, and then what the client
    has observed by itself. */
module CacheReasons {
  import opened Prelude
  import opened CacheDiagnostics

  predicate Differ(a: Option<string>, b: Option<string>) {
    a.Some? && b.Some? && a.value != b.value
  }

  predicate TooSmall(current: Call) {
    current.openAi && current.inputTokens < 1024
  }

  predicate SamePlace(previous: Call, current: Call) {
    !TooSmall(current) && !Differ(previous.providerId, current.providerId) && !Differ(previous.model, current.model)
  }

  predicate BothTraced(a: Observation, b: Observation) {
    a.trace.Some? && b.trace.Some?
  }

  /** The traces explain the loss. */
  ghost predicate WireTells(a: Observation, b: Observation) {
    BothTraced(a, b) && !SameWire(a.trace.value, b.trace.value)
  }

  ghost predicate SameContent(a: Observation, b: Observation) {
    b.contextItems == [] || Begins(a.contextItems, b.contextItems, ContextItemMatches)
  }

  predicate SameKeyAndTools(a: Observation, b: Observation) {
    a.promptCacheKey == b.promptCacheKey && !Differ(a.toolCatalogSignature, b.toolCatalogSignature)
  }

  ghost predicate NothingSeen(a: Observation, b: Observation) {
    SameKeyAndTools(a, b) && SameContent(a, b) && !Differ(a.systemPrompt, b.systemPrompt)
  }

  // ----------------------------------------------------------- no diagnosis

  /** The reasons of a call that has lost nothing, as far as is known. */
  lemma {:induction false} HarmlessReasonsExactly(current: Call, previous: Option<Call>, rank: string -> int)
    ensures var d := Diagnose(current, previous, rank);
            var baseline := previous.Some? && previous.value.cachedInputTokens > 0;
            && (d.reason == UsageUnreported <==> !current.cacheReadTokensReported)
            && (d.reason == NoBaseline <==>
                current.cacheReadTokensReported && !baseline && current.cachedInputTokens == 0)
            && (d.reason == CacheHit <==>
                current.cacheReadTokensReported &&
                if baseline then LostTokens(previous.value, current) == 0 else current.cachedInputTokens > 0)
            && (d.state.Unverified? <==> d.reason == UsageUnreported || d.reason == NoBaseline)
            && (d.state.Reused? <==> d.reason == CacheHit)
  {
  }

  /** The loss is what is missing for all that was cached before to be cached again, or, if
      the new request is shorter than that, for all of it. */
  lemma {:induction false} LossIs(current: Call, previous: Option<Call>, rank: string -> int)
    ensures var lost, now := Diagnose(current, previous, rank).lostCachedTokens, current.cachedInputTokens;
            if !current.cacheReadTokensReported || previous.None? then lost == 0
            else
              var cached, size := previous.value.cachedInputTokens, current.inputTokens;
              && (now >= cached || now >= size ==> lost == 0)
              && (now < cached <= size ==> now + lost == cached)
              && (now < size <= cached ==> now + lost == size)
  {
  }

  // ---------------------------------------------------- before the requests

  /** The reasons that are looked at first. */
  lemma {:induction false} PlaceReasonsExactly(current: Call, previous: Call, rank: string -> int)
    requires current.cacheReadTokensReported && LostTokens(previous, current) > 0
    ensures var d := Diagnose(current, Some(previous), rank);
            && (d.reason == InputBelowMinimum <==> TooSmall(current))
            && (d.reason == ProviderChanged <==> !TooSmall(current) && Differ(previous.providerId, current.providerId))
            && (d.reason == ModelChanged <==>
                && !TooSmall(current) && !Differ(previous.providerId, current.providerId)
                && Differ(previous.model, current.model))
            && (d.reason == ProviderChanged ==>
                d.breakpoint == Some(ConfigurationBreakpoint("provider", current.providerId.value, Configuration)))
            && (d.reason == ModelChanged ==>
                d.breakpoint == Some(ConfigurationBreakpoint("model", current.model.value, Configuration)))
  {
    DiagnoseBlames(current, previous, rank);
    var a, b := previous.observation, current.observation;
    if BothTraced(a, b) { WireReasons(a.trace.value, b.trace.value, rank); }
    ObservedReasons(a, b);
  }

  lemma {:induction false} BlameIs(current: Call, previous: Call, rank: string -> int)
    requires SamePlace(previous, current)
    ensures var a, b := previous.observation, current.observation;
            BlameFor(previous, current, rank) ==
            if WireTells(a, b) && BlameWire(a.trace.value, b.trace.value, rank).Some?
            then BlameWire(a.trace.value, b.trace.value, rank).value else BlameObserved(a, b)
  {
    var a, b := previous.observation, current.observation;
    if BothTraced(a, b) { WireIsBlamedExactly(a.trace.value, b.trace.value, rank); }
  }

  // -------------------------------------------------------------- the traces

  lemma {:induction false} WireReasons(a: Trace, b: Trace, rank: string -> int)
    ensures var blame := BlameWire(a, b, rank);
            var keys, tools := a.promptCacheKeyHash == b.promptCacheKeyHash, a.toolCatalogHash == b.toolCatalogHash;
            && (blame.Some? <==> !SameWire(a, b))
            && (blame.Some? ==>
                  var reason := blame.value.reason;
                  && blame.value.confidence == High
                  && (reason == CacheKeyChanged <==> !keys)
                  && (reason == ToolCatalogChanged <==> keys && !tools)
                  && (reason == RequestConfigurationChanged <==>
                      keys && tools && Values(a.configuration) != Values(b.configuration))
                  && (reason == WirePrefixChanged <==>
                      keys && tools && Values(a.configuration) == Values(b.configuration))
                  && reason in {CacheKeyChanged, ToolCatalogChanged, RequestConfigurationChanged, WirePrefixChanged})
  {
    WireIsBlamedExactly(a, b, rank);
    ConfigurationChangeIs(a.configuration, b.configuration, rank);
  }

  // ------------------------------------------------------ what was observed

  ghost predicate ObservedReason(a: Observation, b: Observation, blame: Blame) {
    && (blame.reason == CacheKeyChanged <==> a.promptCacheKey != b.promptCacheKey)
    && (blame.reason == ToolCatalogChanged <==>
        a.promptCacheKey == b.promptCacheKey && Differ(a.toolCatalogSignature, b.toolCatalogSignature))
    && (blame.reason == ContentChanged <==> SameKeyAndTools(a, b) && !SameContent(a, b))
    && (blame.reason == SystemPromptChanged <==>
        SameKeyAndTools(a, b) && SameContent(a, b) && Differ(a.systemPrompt, b.systemPrompt))
    && (blame.reason == StatefulContext <==> NothingSeen(a, b) && (Stateful(a) || Stateful(b)))
    && (blame.reason == DiagnosticDataMissing <==>
        NothingSeen(a, b) && !Stateful(a) && !Stateful(b) && !BothTraced(a, b)
        && (a.contextItems == [] || b.contextItems == []))
    && (blame.reason == OperationalMiss <==>
        NothingSeen(a, b) && !Stateful(a) && !Stateful(b)
        && (BothTraced(a, b) || (a.contextItems != [] && b.contextItems != [])))
    && blame.reason in {CacheKeyChanged, ToolCatalogChanged, ContentChanged, SystemPromptChanged, StatefulContext,
                        DiagnosticDataMissing, OperationalMiss}
  }

  ghost predicate ObservedConfidence(a: Observation, b: Observation, blame: Blame) {
    && (blame.confidence == High <==> blame.reason in {CacheKeyChanged, ToolCatalogChanged, SystemPromptChanged})
    && (blame.confidence == Medium <==>
        blame.reason == ContentChanged || (blame.reason == OperationalMiss && BothTraced(a, b)))
  }

  lemma {:induction false} ObservedReasons(a: Observation, b: Observation)
    ensures ObservedReason(a, b, BlameObserved(a, b)) && ObservedConfidence(a, b, BlameObserved(a, b))
  {
    NoContextBreakpointExactly(a.contextItems, b.contextItems);
  }

  // -------------------------------------------------------------- all reasons

  /** The reasons that the traces can give by themselves, and the first two of which the
      client can observe without them. */
  lemma {:induction false} WireReasonsExactly(current: Call, previous: Call, rank: string -> int)
    requires current.cacheReadTokensReported && LostTokens(previous, current) > 0
    ensures var d := Diagnose(current, Some(previous), rank);
            var a, b := previous.observation, current.observation;
            && (d.reason == CacheKeyChanged <==>
                SamePlace(previous, current) &&
                if WireTells(a, b) then a.trace.value.promptCacheKeyHash != b.trace.value.promptCacheKeyHash
                else a.promptCacheKey != b.promptCacheKey)
            && (d.reason == ToolCatalogChanged <==>
                SamePlace(previous, current) &&
                if WireTells(a, b) then a.trace.value.promptCacheKeyHash == b.trace.value.promptCacheKeyHash
                  && a.trace.value.toolCatalogHash != b.trace.value.toolCatalogHash
                else a.promptCacheKey == b.promptCacheKey && Differ(a.toolCatalogSignature, b.toolCatalogSignature))
            && (d.reason == RequestConfigurationChanged <==>
                && SamePlace(previous, current) && BothTraced(a, b)
                && a.trace.value.promptCacheKeyHash == b.trace.value.promptCacheKeyHash
                && a.trace.value.toolCatalogHash == b.trace.value.toolCatalogHash
                && Values(a.trace.value.configuration) != Values(b.trace.value.configuration))
  {
    ReasonIs(current, previous, rank);
  }

  /** The reason, wherever it comes from. */
  lemma {:induction false} ReasonIs(current: Call, previous: Call, rank: string -> int)
    requires current.cacheReadTokensReported && LostTokens(previous, current) > 0
    ensures var d := Diagnose(current, Some(previous), rank);
            var a, b := previous.observation, current.observation;
            if !SamePlace(previous, current) then d.reason in {InputBelowMinimum, ProviderChanged, ModelChanged}
            else if WireTells(a, b) then
              && BlameWire(a.trace.value, b.trace.value, rank) == Some(Blame(d.reason, d.confidence, d.breakpoint))
              && d.reason in {CacheKeyChanged, ToolCatalogChanged, RequestConfigurationChanged, WirePrefixChanged}
              && var s, t := a.trace.value, b.trace.value;
                 && (d.reason == CacheKeyChanged <==> s.promptCacheKeyHash != t.promptCacheKeyHash)
                 && (d.reason == ToolCatalogChanged <==>
                     s.promptCacheKeyHash == t.promptCacheKeyHash && s.toolCatalogHash != t.toolCatalogHash)
                 && (d.reason == RequestConfigurationChanged <==>
                     s.promptCacheKeyHash == t.promptCacheKeyHash && s.toolCatalogHash == t.toolCatalogHash
                     && Values(s.configuration) != Values(t.configuration))
            else
              var blame := Blame(d.reason, d.confidence, d.breakpoint);
              ObservedReason(a, b, blame) && ObservedConfidence(a, b, blame)
  {
    DiagnoseBlames(current, previous, rank);
    var a, b := previous.observation, current.observation;
    if SamePlace(previous, current) {
      BlameIs(current, previous, rank);
      if WireTells(a, b) { WireReasons(a.trace.value, b.trace.value, rank); } else { ObservedReasons(a, b); }
    }
  }

  /** The reasons that only what the client has observed can give. */
  lemma {:induction false} ObservedReasonsExactly(current: Call, previous: Call, rank: string -> int)
    requires current.cacheReadTokensReported && LostTokens(previous, current) > 0
    ensures var d := Diagnose(current, Some(previous), rank);
            var a, b := previous.observation, current.observation;
            var asked := SamePlace(previous, current) && !WireTells(a, b);
            && (d.reason == ContentChanged <==> asked && SameKeyAndTools(a, b) && !SameContent(a, b))
            && (d.reason == SystemPromptChanged <==>
                asked && SameKeyAndTools(a, b) && SameContent(a, b) && Differ(a.systemPrompt, b.systemPrompt))
            && (d.reason == StatefulContext <==> asked && NothingSeen(a, b) && (Stateful(a) || Stateful(b)))
            && (d.reason == DiagnosticDataMissing <==>
                asked && NothingSeen(a, b) && !Stateful(a) && !Stateful(b) && !BothTraced(a, b)
                && (a.contextItems == [] || b.contextItems == []))
            && (d.reason == OperationalMiss <==>
                asked && NothingSeen(a, b) && !Stateful(a) && !Stateful(b)
                && (BothTraced(a, b) || (a.contextItems != [] && b.contextItems != [])))
  {
    ReasonIs(current, previous, rank);
  }

  // ---------------------------------------------------------------- offsets

  /** The offsets of breakpoints are sums of the estimates of what stands before them. */
  lemma {:induction false} SegmentsAddUp(a: seq<Segment>, b: seq<Segment>, x: Segment)
    ensures SegmentTokens(a + b) == SegmentTokens(a) + SegmentTokens(b) && SegmentTokens([x]) == x.tokenEstimate
    decreases |b|
  {
    assert [x][..0] == [] && SegmentTokens([]) == 0;
    if b == [] {
      assert a + b == a;
    } else {
      assert (a + b)[..|a + b| - 1] == a + b[..|b| - 1];
      SegmentsAddUp(a, b[..|b| - 1], x);
    }
  }

  lemma {:induction false} ItemsAddUp(a: seq<ContextItem>, b: seq<ContextItem>, x: ContextItem)
    ensures ContextTokens(a + b) == ContextTokens(a) + ContextTokens(b) && ContextTokens([x]) == x.tokenEstimate
    decreases |b|
  {
    assert [x][..0] == [] && ContextTokens([]) == 0;
    if b == [] {
      assert a + b == a;
    } else {
      assert (a + b)[..|a + b| - 1] == a + b[..|b| - 1];
      ItemsAddUp(a, b[..|b| - 1], x);
    }
  }
}
