/** The ids of rows, by which the renderer tells them apart. */
module DiffRowIds {
  import opened Prelude
  import opened DiffBlocks
  import opened DiffRows

  ghost predicate SplitIdsFrom(rows: seq<SplitRow>, at: nat) {
    && (forall row <- rows | row.Pair? :: at <= row.id.block)
    && forall i, j | 0 <= i < j < |rows| && rows[i].Pair? && rows[j].Pair? :: rows[i].id != rows[j].id
  }

  ghost predicate UnifiedIdsFrom(rows: seq<UnifiedRow>, at: nat) {
    && (forall row <- rows | row.Single? :: at <= row.id.block)
    && forall i, j | 0 <= i < j < |rows| && rows[i].Single? && rows[j].Single? :: rows[i].id != rows[j].id
  }

  lemma {:induction false} SplitBlockIds(block: Block, at: nat, options: RowOptions)
    ensures var rows := SplitBlockRows(block, at, options);
            SplitIdsFrom(rows, at) && forall row <- rows | row.Pair? :: row.id.block == at
  {
  }

  lemma {:induction false} UnifiedBlockIds(block: Block, at: nat, options: RowOptions)
    ensures var rows := UnifiedBlockRows(block, at, options);
            UnifiedIdsFrom(rows, at) && forall row <- rows | row.Single? :: row.id.block == at
  {
  }

  /** No two lines of the split view have the same id. */
  lemma {:induction false} SplitIdsAreDistinct(blocks: seq<Block>, at: nat, options: RowOptions)
    requires at <= |blocks|
    ensures SplitIdsFrom(SplitRows(blocks, at, options), at)
    decreases |blocks| - at
  {
    if at < |blocks| {
      var own, rest := SplitBlockRows(blocks[at], at, options), SplitRows(blocks, at + 1, options);
      SplitBlockIds(blocks[at], at, options);
      SplitIdsAreDistinct(blocks, at + 1, options);
      SplitIdsJoin(own, rest, at);
    }
  }

  lemma {:induction false} SplitIdsJoin(own: seq<SplitRow>, rest: seq<SplitRow>, at: nat)
    requires SplitIdsFrom(own, at) && SplitIdsFrom(rest, at + 1)
    requires forall row <- own | row.Pair? :: row.id.block == at
    ensures SplitIdsFrom(own + rest, at)
  {
    var rows := own + rest;
    forall i, j | 0 <= i < j < |rows| && rows[i].Pair? && rows[j].Pair? ensures rows[i].id != rows[j].id {
      if i < |own| <= j { assert own[i] in own && rest[j - |own|] in rest; }
    }
  }

  /** Nor do two of the unified view. */
  lemma {:induction false} UnifiedIdsAreDistinct(blocks: seq<Block>, at: nat, options: RowOptions)
    requires at <= |blocks|
    ensures UnifiedIdsFrom(UnifiedRows(blocks, at, options), at)
    decreases |blocks| - at
  {
    if at < |blocks| {
      var own, rest := UnifiedBlockRows(blocks[at], at, options), UnifiedRows(blocks, at + 1, options);
      UnifiedBlockIds(blocks[at], at, options);
      UnifiedIdsAreDistinct(blocks, at + 1, options);
      UnifiedIdsJoin(own, rest, at);
    }
  }

  lemma {:induction false} UnifiedIdsJoin(own: seq<UnifiedRow>, rest: seq<UnifiedRow>, at: nat)
    requires UnifiedIdsFrom(own, at) && UnifiedIdsFrom(rest, at + 1)
    requires forall row <- own | row.Single? :: row.id.block == at
    ensures UnifiedIdsFrom(own + rest, at)
  {
    var rows := own + rest;
    forall i, j | 0 <= i < j < |rows| && rows[i].Single? && rows[j].Single? ensures rows[i].id != rows[j].id {
      if i < |own| <= j { assert own[i] in own && rest[j - |own|] in rest; }
    }
  }
}
