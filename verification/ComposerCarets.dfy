/** Where the caret of a snapshot stands: behind how many tokens, and whether the content of
    the snapshot, cut afresh, has as many. */
module ComposerCarets {
  import opened Prelude
  import opened Composer
  import opened ComposerHistory
  import opened ComposerCuts
  import opened ComposerSeams

  /** `t` are the pieces of a longer text: only the last piece of `s` may have grown. */
  ghost predicate Grown(s: seq<string>, t: seq<string>) {
    && s != [] && |s| <= |t| && s[..|s| - 1] == t[..|s| - 1] && s[|s| - 1] <= t[|s| - 1]
  }

  /** A segmentation that reads from left to right, as that of Unicode does: a place where a
      text is cut stays one when more text follows. */
  ghost predicate ReadsForward(split: Segmenter) {
    Segments(split) && forall x, y | x != "" :: Grown(split(x), split(x + y))
  }

  lemma {:induction false} Grows(x: string, y: string, split: Segmenter)
    requires ReadsForward(split) && x != ""
    ensures Grown(split(x), split(x + y))
  {
  }

  lemma {:induction false} LongerByFlat(u: seq<Part>, x: seq<Part>, whole: seq<Part>)
    requires u <= whole && x <= whole && Solid(whole) && |Flat(u)| <= |Flat(x)|
    ensures |u| <= |x|
  {
    if |x| < |u| { LongerHoldsMore(x, u, whole); }
  }

  lemma {:induction false} FlatSnoc(front: seq<Part>, last: string)
    ensures |Flat(front + [Text(last)])| == |Flat(front)| + |last|
  {
    FlatPlus(front, [Text(last)]);
    FlatSingle(Text(last));
  }

  /** Of two beginnings with the same content, the one whose last token may have grown has
      not grown. */
  lemma {:induction false} NotGrown(us: seq<Part>, whole: seq<Part>, front: seq<Part>, last: string, grown: string)
    requires Solid(whole) && us <= whole && front + [Text(grown)] <= whole && last <= grown && last != ""
    requires |Flat(us)| == |Flat(front + [Text(last)])|
    ensures us == front + [Text(last)]
  {
    FlatSnoc(front, last);
    FlatSnoc(front, grown);
    var longer := front + [Text(grown)];
    assert front <= whole;
    LongerByFlat(us, longer, whole);
    if |us| <= |front| {
      BeginningHoldsLess(us, front, whole);
    }
    assert us == longer;
    assert last == grown;
  }

  lemma {:induction false} StableWithoutSeam(us: seq<Part>, ws: seq<Part>, split: Segmenter)
    requires Segments(split) && Solid(us) && Solid(ws) && Stable(us + ws, split) && !(TextLast(us) && TextFirst(ws))
    ensures Stable(us, split)
  {
    CutApart(us, ws, split);
    FlatOfCut(us, split);
    SameBeginning(us, ws, Cut(us, split), Cut(ws, split));
  }

  lemma {:induction false} GrownTokens(front: seq<Part>, s: seq<string>, t: seq<string>, back: seq<Part>)
    requires Grown(s, t)
    ensures front + TextTokens(s) == front + TextTokens(s[..|s| - 1]) + [Text(s[|s| - 1])]
    ensures front + TextTokens(s[..|s| - 1]) + [Text(t[|s| - 1])] <= front + TextTokens(t) + back
  {
    var m := |s| - 1;
    var long := front + TextTokens(s[..m]) + [Text(t[m])];
    var whole := front + TextTokens(t) + back;
    assert TextTokens(s) == TextTokens(s[..m]) + [Text(s[m])];
    Regroup3(front, TextTokens(s[..m]), [Text(s[m])]);
    forall i | 0 <= i < |long| ensures long[i] == whole[i] {
      if |front| <= i < |front| + m { assert s[..m][i - |front|] == t[..m][i - |front|]; }
    }
  }

  lemma {:induction false} StableAtSeam(us: seq<Part>, ws: seq<Part>, split: Segmenter)
    requires ReadsForward(split) && Solid(us) && Solid(ws) && Stable(us + ws, split) && TextLast(us) && TextFirst(ws)
    ensures Stable(us, split)
  {
    LastOfParts(us);
    var x, y, front, back := TailText(us), HeadText(ws), Front(us, split), Back(ws, split);
    var s, t := split(x), split(x + y);
    Grows(x, y, split);
    CutJoined(us, ws, split);
    CutAtTail(us, split);
    GrownTokens(front, s, t, back);
    FlatOfCut(us, split);
    assert s[|s| - 1] in s;
    SolidPlus(us, ws);
    NotGrown(us, us + ws, front + TextTokens(s[..|s| - 1]), s[|s| - 1], t[|s| - 1]);
  }

  lemma {:induction false} SolidPlus(u: seq<Part>, v: seq<Part>)
    requires Solid(u) && Solid(v)
    ensures Solid(u + v)
  {
  }

  /** The beginning of tokens that are cut rightly is cut rightly. */
  lemma {:induction false} BeginningIsStable(us: seq<Part>, ws: seq<Part>, split: Segmenter)
    requires ReadsForward(split) && Solid(us) && Solid(ws) && Stable(us + ws, split)
    ensures Stable(us, split)
  {
    if TextLast(us) && TextFirst(ws) {
      StableAtSeam(us, ws, split);
    } else {
      StableWithoutSeam(us, ws, split);
    }
  }

  /** Whatever follows, content has at least as many tokens as its beginning. */
  lemma {:induction false} TokensDoNotVanish(us: seq<Part>, vs: seq<Part>, split: Segmenter)
    requires ReadsForward(split) && Solid(us) && Solid(vs) && Stable(us, split)
    ensures |us| <= |Cut(us + vs, split)|
  {
    if TextLast(us) && TextFirst(vs) {
      LastOfParts(us);
      CutJoined(us, vs, split);
      CutAtTail(us, split);
      Grows(TailText(us), HeadText(vs), split);
    } else {
      CutApart(us, vs, split);
    }
  }

  /** A beginning and an end of content that is cut rightly, put together. */
  lemma {:induction false} CaretAtSeam(b: seq<Part>, n: nat, m: nat, split: Segmenter)
    requires ReadsForward(split) && Solid(b) && Stable(b, split) && n <= m <= |b|
    ensures n <= |Cut(b[..n] + b[m..], split)|
  {
    InTwo(b, n);
    SolidSplit(b, b[..n], b[n..]);
    InTwo(b, m);
    SolidSplit(b, b[..m], b[m..]);
    BeginningIsStable(b[..n], b[n..], split);
    TokensDoNotVanish(b[..n], b[m..], split);
  }

  lemma {:induction false} SeamTokens(b: seq<Part>, kept: seq<Part>, n: nat, m: nat, split: Segmenter)
    requires Clean(b) && n <= m <= |b| && kept == b[..n] + b[m..]
    ensures Tokens(PartsFromTokens(kept), split) == Cut(kept, split)
  {
    TokensOfCleanTokens(kept, split);
  }

  lemma {:induction false} SeamCaretFits(b: seq<Part>, kept: seq<Part>, n: nat, m: nat, split: Segmenter)
    requires ReadsForward(split) && Clean(b) && Solid(b) && Stable(b, split) && n <= m <= |b| && kept == b[..n] + b[m..]
    ensures n <= |Tokens(PartsFromTokens(kept), split)|
  {
    SeamTokens(b, kept, n, m, split);
    CaretAtSeam(b, n, m, split);
  }

  lemma {:induction false} ContentCaretFits(parts: seq<Part>, b: seq<Part>, r: Affixes, k: nat, split: Segmenter)
    requires ReadsForward(split) && b == Tokens(parts, split) && r.prefix + k + r.suffix <= |b|
    ensures r.prefix + k <= |Tokens(PartsFromTokens(Typed(b, r, k)), split)|
  {
    TokensAreStable(parts, split);
    TokensAreClean(parts, split);
    SeamCaretFits(b, Typed(b, r, k), r.prefix + k, |b| - r.suffix, split);
  }

  /** After a clean-up the caret stands within the content. */
  lemma {:induction false} CleanUpCaretFits(before: Snapshot, after: Snapshot, split: Segmenter)
    requires ReadsForward(split)
    requires LeavesScaffolding(Tokens(before.parts, split), Tokens(after.parts, split))
    ensures var once := CleanUp(before, after, split); 0 <= once.caretOffset <= |Tokens(once.parts, split)|
  {
    var a, b := Tokens(before.parts, split), Tokens(after.parts, split);
    var r := AffixesOf(a, b, SameToken);
    CleanUpByTokens(before, after, split);
    ContentCaretFits(after.parts, b, r, 0, split);
  }

  /** After a clean-up the caret stands in the gap: behind as many tokens as the two contents
      share at their beginning. */
  lemma {:induction false} CleanUpCaretIs(before: Snapshot, after: Snapshot, split: Segmenter, n: nat)
    requires var a, b := Tokens(before.parts, split), Tokens(after.parts, split);
             && LeavesScaffolding(a, b) && n < |a| && n < |b|
             && (forall i | 0 <= i < n :: SameToken(a[i], b[i])) && !SameToken(a[n], b[n])
    ensures CleanUp(before, after, split).caretOffset == n
  {
    var a, b := Tokens(before.parts, split), Tokens(after.parts, split);
    CleanUpByTokens(before, after, split);
    PrefixIsUnique(a, b, SameToken, n);
  }

  /** So it does in every undo entry of content with references. */
  lemma {:induction false} TokenCaretFits(before: Snapshot, after: Snapshot, split: Segmenter, k: nat)
    requires ReadsForward(split) && !(PlainText(before.parts).Some? && PlainText(after.parts).Some?)
    requires 0 < k < |UndoEntries(before, after, true, split)|
    ensures var entry := UndoEntries(before, after, true, split)[k];
            0 <= entry.caretOffset <= |Tokens(entry.parts, split)|
  {
    var a, b := Tokens(before.parts, split), Tokens(after.parts, split);
    var r := AffixesOf(a, b, SameToken);
    ContentCaretFits(after.parts, b, r, k, split);
  }

  // ----------------------------------------------------------- plain text

  lemma {:induction false} CutOfPieces(pieces: seq<string>, split: Segmenter)
    requires pieces != []
    ensures Cut(TextTokens(pieces), split) == TextTokens(split(Concat(pieces)))
  {
    AddPieces([], pieces);
    TokensOfSingle(Text(Concat(pieces)), split);
  }

  lemma {:induction false} SolidPieces(pieces: seq<string>)
    requires forall piece <- pieces :: piece != ""
    ensures Solid(TextTokens(pieces))
  {
    forall i | 0 <= i < |pieces| ensures pieces[i] != "" { assert pieces[i] in pieces; }
  }

  lemma {:induction false} SamePieces(s: seq<string>, t: seq<string>)
    requires TextTokens(s) == TextTokens(t)
    ensures s == t
  {
    assert |TextTokens(s)| == |TextTokens(t)|;
    forall i | 0 <= i < |s| ensures s[i] == t[i] { assert TextTokens(s)[i] == TextTokens(t)[i]; }
  }

  /** The first pieces of a text are the pieces of what they make up. */
  lemma {:induction false} FirstPieces(text: string, n: nat, split: Segmenter)
    requires ReadsForward(split) && 0 < n <= |split(text)|
    ensures split(Concat(split(text)[..n])) == split(text)[..n]
  {
    var pieces := split(text);
    var us, ws := TextTokens(pieces[..n]), TextTokens(pieces[n..]);
    assert pieces == pieces[..n] + pieces[n..];
    TextTokensPlus(pieces[..n], pieces[n..]);
    CutOfPieces(pieces, split);
    assert forall piece <- pieces[..n] :: piece in pieces;
    assert forall piece <- pieces[n..] :: piece in pieces;
    SolidPieces(pieces[..n]);
    SolidPieces(pieces[n..]);
    BeginningIsStable(us, ws, split);
    CutOfPieces(pieces[..n], split);
    SamePieces(split(Concat(pieces[..n])), pieces[..n]);
  }

  lemma {:induction false} PiecesUpTo(p: string, inserted: string, k: nat, split: Segmenter)
    requires ReadsForward(split) && split(p + inserted) == split(p) + split(inserted) && k <= |split(inserted)|
    ensures |split(p + Concat(split(inserted)[..k]))| == |split(p)| + k
  {
    var n := |split(p)| + k;
    var first, more := split(p), split(inserted);
    assert (first + more)[..n] == first + more[..k];
    ConcatAppend(first, more[..k]);
    assert Concat(first) == p;
    if n > 0 {
      FirstPieces(p + inserted, n, split);
    } else {
      assert more[..k] == [] && p + Concat(more[..k]) == p;
    }
  }

  lemma {:induction false} PiecesDoNotVanish(x: string, y: string, split: Segmenter)
    requires ReadsForward(split)
    ensures |split(x)| <= |split(x + y)|
  {
    if x == "" {
      assert Concat(split(x)) == x;
      PiecesFit(split(x));
    } else {
      Grows(x, y, split);
    }
  }

  /** Between texts the caret stands within the content as long as the text in front of the
      insertion and the inserted text are not joined by a piece. */
  lemma {:induction false} PlainCaretFits(before: Snapshot, after: Snapshot, split: Segmenter, k: nat)
    requires ReadsForward(split) && PlainText(before.parts).Some? && PlainText(after.parts).Some?
    requires 0 < k < |UndoEntries(before, after, true, split)|
    requires var a, b := PlainText(before.parts).value, PlainText(after.parts).value;
             var p := b[..AffixesOf(a, b, SameChar).prefix];
             split(p + PlainInserted(a, b)) == split(p) + split(PlainInserted(a, b))
    ensures var entry := UndoEntries(before, after, true, split)[k];
            0 <= entry.caretOffset <= |Tokens(entry.parts, split)|
  {
    var a, b := PlainText(before.parts).value, PlainText(after.parts).value;
    PlainEntryCounts(before, after, a, b, split, k);
    UnjoinedCaret(a, b, split, k);
  }

  lemma {:induction false} UnjoinedCaret(a: string, b: string, split: Segmenter, k: nat)
    requires ReadsForward(split) && k <= |split(PlainInserted(a, b))|
    requires var p := b[..AffixesOf(a, b, SameChar).prefix];
             split(p + PlainInserted(a, b)) == split(p) + split(PlainInserted(a, b))
    ensures |split(b[..AffixesOf(a, b, SameChar).prefix])| + k <= |split(PlainState(a, b, split, k))|
  {
    var r, inserted := AffixesOf(a, b, SameChar), PlainInserted(a, b);
    var p, rest := b[..r.prefix], b[|b| - r.suffix..];
    PiecesUpTo(p, inserted, k, split);
    PiecesDoNotVanish(p + Concat(split(inserted)[..k]), rest, split);
  }

  lemma {:induction false} PlainEntryIs(before: Snapshot, a: string, b: string, split: Segmenter, k: nat)
    requires 0 < k < |PlainEntries(before, a, b, true, split)|
    ensures k < |split(PlainInserted(a, b))|
    ensures PlainEntries(before, a, b, true, split)[k].caretOffset
            == |split(b[..AffixesOf(a, b, SameChar).prefix])| + k
  {
  }

  lemma {:induction false} PlainTokens(text: string, parts: seq<Part>, split: Segmenter)
    requires Segments(split) && PlainText(parts) == Some(text)
    ensures |Tokens(parts, split)| == |split(text)|
  {
    NormalizeIsNormal(parts);
    var n := NormalizeParts(parts);
    if n == [] {
      assert Concat(split("")) == "";
      PiecesFit(split(""));
    } else {
      assert n == [n[0]];
      TokensOfSingle(n[0], split);
    }
  }

  // ------------------------------------------ exactly when the caret fits

  /** The last piece of `x` and the first of `y` join, and the other pieces stay. */
  ghost predicate Fuses(x: string, y: string, split: Segmenter) {
    x != "" && y != "" && split(x + y) == Fused(split(x), split(y))
  }

  /** At the seam of two texts pieces join or do not; no piece is cut elsewhere. */
  ghost predicate SimpleSeam(x: string, y: string, split: Segmenter) {
    Fuses(x, y, split) || split(x + y) == split(x) + split(y)
  }

  lemma {:induction false} FusedCount(x: string, y: string, split: Segmenter)
    requires Segments(split) && Fuses(x, y, split)
    ensures |split(x + y)| == |split(x)| + |split(y)| - 1 && split(x) != [] && split(y) != []
  {
    NotEmptyPieces(x, split);
    NotEmptyPieces(y, split);
  }

  lemma {:induction false} FirstOfFused(s: seq<string>, t: seq<string>, k: nat)
    requires s != [] && 0 < k <= |t|
    ensures Fused(s, t)[..|s| - 1 + k] == Fused(s, t[..k])
  {
  }

  lemma {:induction false} ConcatFused(s: seq<string>, t: seq<string>)
    requires s != [] && t != []
    ensures Concat(Fused(s, t)) == Concat(s) + Concat(t)
  {
    var front, last, rest := s[..|s| - 1], s[|s| - 1], t[1..];
    var left := Concat(front);
    assert s == front + [last] && t == [t[0]] + rest;
    ConcatAppend(front, [last]);
    ConcatAppend([t[0]], rest);
    ConcatOne(last);
    ConcatOne(t[0]);
    ConcatAppend(front, [last + t[0]]);
    ConcatOne(last + t[0]);
    ConcatAppend(front + [last + t[0]], rest);
    Regroup3(left, last, t[0]);
    Regroup3(left + last, t[0], Concat(rest));
  }

  /** Where the inserted text joins the text before it, one piece is missing from then on. */
  lemma {:induction false} JoinedPiecesUpTo(p: string, inserted: string, k: nat, split: Segmenter)
    requires ReadsForward(split) && Fuses(p, inserted, split) && 0 < k <= |split(inserted)|
    ensures |split(p + Concat(split(inserted)[..k]))| == |split(p)| + k - 1
  {
    var s, t := split(p), split(inserted);
    FusedCount(p, inserted, split);
    FirstOfFused(s, t, k);
    ConcatFused(s, t[..k]);
    assert Concat(s) == p;
    FirstPieces(p + inserted, |s| + k - 1, split);
  }

  /** How many pieces a text has when more text follows. */
  lemma {:induction false} PiecesBehindSeam(x: string, rest: string, split: Segmenter)
    requires ReadsForward(split) && SimpleSeam(x, rest, split)
    ensures |split(x + rest)| == |split(x)| <==> rest == "" || (|split(rest)| == 1 && Fuses(x, rest, split))
  {
    if rest == "" {
      assert x + rest == x;
    } else {
      NotEmptyPieces(rest, split);
      if Fuses(x, rest, split) { FusedCount(x, rest, split); }
    }
  }

  /** A caret behind the pieces of `p` and `k` pieces more, in the text that has these. */
  lemma {:induction false} CaretAtPieces(
      p: string, inserted: string, k: nat, x: string, rest: string, count: nat, split: Segmenter)
    requires ReadsForward(split) && 0 < k <= |split(inserted)| && x == p + Concat(split(inserted)[..k])
    requires SimpleSeam(p, inserted, split) && SimpleSeam(x, rest, split) && count == |split(x + rest)|
    ensures |split(p)| + k <= count
            <==> !(Fuses(p, inserted, split) && (rest == "" || (|split(rest)| == 1 && Fuses(x, rest, split))))
  {
    PiecesDoNotVanish(x, rest, split);
    if Fuses(p, inserted, split) {
      JoinedPiecesUpTo(p, inserted, k, split);
      PiecesBehindSeam(x, rest, split);
    } else {
      PiecesUpTo(p, inserted, k, split);
    }
  }

  /** Both seams of the `k`-th text of an insertion are simple. */
  ghost predicate SimpleSeams(a: string, b: string, split: Segmenter, k: nat)
    requires k <= |split(PlainInserted(a, b))|
  {
    var r, inserted := AffixesOf(a, b, SameChar), PlainInserted(a, b);
    var p, rest := b[..r.prefix], b[|b| - r.suffix..];
    SimpleSeam(p, inserted, split) && SimpleSeam(p + Concat(split(inserted)[..k]), rest, split)
  }

  /** The inserted text joins the text before it, and nothing behind makes up for the piece
      that is lost: no text follows, or one piece that joins too. */
  ghost predicate LosesAPiece(a: string, b: string, split: Segmenter, k: nat)
    requires k <= |split(PlainInserted(a, b))|
  {
    var r, inserted := AffixesOf(a, b, SameChar), PlainInserted(a, b);
    var p, rest := b[..r.prefix], b[|b| - r.suffix..];
    var x := p + Concat(split(inserted)[..k]);
    Fuses(p, inserted, split) && (rest == "" || (|split(rest)| == 1 && Fuses(x, rest, split)))
  }

  lemma {:induction false} CaretInText(a: string, b: string, split: Segmenter, k: nat)
    requires ReadsForward(split) && 0 < k <= |split(PlainInserted(a, b))| && SimpleSeams(a, b, split, k)
    ensures |split(b[..AffixesOf(a, b, SameChar).prefix])| + k <= |split(PlainState(a, b, split, k))|
            <==> !LosesAPiece(a, b, split, k)
  {
    var r, inserted := AffixesOf(a, b, SameChar), PlainInserted(a, b);
    var p, rest := b[..r.prefix], b[|b| - r.suffix..];
    var x := p + Concat(split(inserted)[..k]);
    CaretAtPieces(p, inserted, k, x, rest, |split(x + rest)|, split);
  }

  /** The caret of an entry between texts stands behind its end exactly when a piece is
      lost. */
  lemma {:induction false} PlainCaretExactly(before: Snapshot, after: Snapshot, split: Segmenter, k: nat)
    requires ReadsForward(split) && PlainText(before.parts).Some? && PlainText(after.parts).Some?
    requires 0 < k < |UndoEntries(before, after, true, split)|
    requires SimpleSeams(PlainText(before.parts).value, PlainText(after.parts).value, split, k)
    ensures var entry := UndoEntries(before, after, true, split)[k];
            entry.caretOffset <= |Tokens(entry.parts, split)|
            <==> !LosesAPiece(PlainText(before.parts).value, PlainText(after.parts).value, split, k)
  {
    var a, b := PlainText(before.parts).value, PlainText(after.parts).value;
    PlainEntryCounts(before, after, a, b, split, k);
    CaretInText(a, b, split, k);
  }

  /** How many pieces fewer two texts have together than apart. */
  ghost function Lost(x: string, y: string, split: Segmenter): int {
    |split(x)| + |split(y)| - |split(x + y)|
  }

  /** What the two seams lose is at most what stands behind the caret. */
  ghost predicate BackMakesUp(a: string, b: string, split: Segmenter, k: nat)
    requires k <= |split(PlainInserted(a, b))|
  {
    var r := AffixesOf(a, b, SameChar);
    var p, typed, rest := b[..r.prefix], Concat(split(PlainInserted(a, b))[..k]), b[|b| - r.suffix..];
    Lost(p, typed, split) + Lost(p + typed, rest, split) <= |split(rest)|
  }

  lemma {:induction false} CaretByLoss(a: string, b: string, split: Segmenter, k: nat)
    requires ReadsForward(split) && 0 < k <= |split(PlainInserted(a, b))|
    ensures |split(b[..AffixesOf(a, b, SameChar).prefix])| + k <= |split(PlainState(a, b, split, k))|
            <==> BackMakesUp(a, b, split, k)
  {
    FirstPieces(PlainInserted(a, b), k, split);
  }

  /** The same at seams of any kind, such as those within a row of flags: the caret stands
      within the content exactly when the pieces behind it make up for those lost. */
  lemma {:induction false} PlainCaretAtAnySeam(before: Snapshot, after: Snapshot, split: Segmenter, k: nat)
    requires ReadsForward(split) && PlainText(before.parts).Some? && PlainText(after.parts).Some?
    requires 0 < k < |UndoEntries(before, after, true, split)|
    ensures var entry := UndoEntries(before, after, true, split)[k];
            k <= |split(PlainInserted(PlainText(before.parts).value, PlainText(after.parts).value))|
            && (entry.caretOffset <= |Tokens(entry.parts, split)|
                <==> BackMakesUp(PlainText(before.parts).value, PlainText(after.parts).value, split, k))
  {
    var a, b := PlainText(before.parts).value, PlainText(after.parts).value;
    PlainEntryCounts(before, after, a, b, split, k);
    CaretByLoss(a, b, split, k);
  }

  lemma {:induction false} PlainEntryCounts(
      before: Snapshot, after: Snapshot, a: string, b: string, split: Segmenter, k: nat)
    requires Segments(split) && PlainText(before.parts) == Some(a) && PlainText(after.parts) == Some(b)
    requires 0 < k < |UndoEntries(before, after, true, split)|
    ensures var r, entry := AffixesOf(a, b, SameChar), UndoEntries(before, after, true, split)[k];
            && k < |split(PlainInserted(a, b))|
            && entry.caretOffset == |split(b[..r.prefix])| + k
            && |Tokens(entry.parts, split)| == |split(PlainState(a, b, split, k))|
  {
    PlainChainsAreInsertions(before, after, true, split);
    PlainInsertionUnfolds(before, after, split, AffixesOf(a, b, SameChar).prefix);
    PlainEntryIs(before, a, b, split, k);
    PlainTokens(PlainState(a, b, split, k), UndoEntries(before, after, true, split)[k].parts, split);
  }

  // --------------------------------------------- a piece over the insertion

  const ACUTE := '\U{301}'

  function AccentsAt(text: string): (n: nat)
    ensures n <= |text|
  {
    if text == "" || text[0] != ACUTE then 0 else 1 + AccentsAt(text[1..])
  }

  /** Accents belong to the character before them; any other character is its own piece. */
  function AccentPieces(text: string): seq<string> {
    if text == "" then []
    else
      var n := 1 + AccentsAt(text[1..]);
      [text[..n]] + AccentPieces(text[n..])
  }

  lemma {:induction false} TileOneMore(first: string, rest: string, pieces: seq<string>)
    requires first != "" && Concat(pieces) == rest && forall piece <- pieces :: piece != ""
    ensures Concat([first] + pieces) == first + rest && forall piece <- [first] + pieces :: piece != ""
  {
    ConcatAppend([first], pieces);
    ConcatOne(first);
  }

  lemma {:induction false} AccentPiecesTile(text: string)
    ensures Concat(AccentPieces(text)) == text && forall piece <- AccentPieces(text) :: piece != ""
  {
    if text != "" {
      var n := 1 + AccentsAt(text[1..]);
      var first, rest := text[..n], text[n..];
      AccentPiecesTile(rest);
      TileOneMore(first, rest, AccentPieces(rest));
      FirstAccentPiece(text, n);
      InTwo(text, n);
    }
  }

  lemma {:induction false} AccentPiecesSegment()
    ensures Segments(AccentPieces)
  {
    forall text: string
      ensures Concat(AccentPieces(text)) == text && forall piece <- AccentPieces(text) :: piece != ""
    {
      AccentPiecesTile(text);
    }
  }

  lemma {:induction false} AccentsGoOn(x: string, y: string)
    ensures if AccentsAt(x) < |x| then AccentsAt(x + y) == AccentsAt(x) else AccentsAt(x + y) >= |x|
  {
    if x != "" && x[0] == ACUTE {
      AccentsGoOn(x[1..], y);
      assert (x + y)[1..] == x[1..] + y;
    }
  }

  lemma {:induction false} FirstAccentPiece(text: string, n: nat)
    requires text != "" && n == 1 + AccentsAt(text[1..])
    ensures AccentPieces(text) == [text[..n]] + AccentPieces(text[n..])
  {
  }

  lemma {:induction false} GrownBehind(p: string, s: seq<string>, t: seq<string>)
    requires Grown(s, t)
    ensures Grown([p] + s, [p] + t)
  {
    assert ([p] + s)[..|s|] == [p] + s[..|s| - 1] && ([p] + t)[..|s|] == [p] + t[..|s| - 1];
  }

  lemma {:induction false} FirstPieceStays(x: string, y: string, n: nat)
    requires x != "" && n == 1 + AccentsAt(x[1..]) && n < |x|
    ensures AccentPieces(x) == [x[..n]] + AccentPieces(x[n..])
    ensures AccentPieces(x + y) == [x[..n]] + AccentPieces(x[n..] + y)
  {
    AccentsGoOn(x[1..], y);
    Slices(x, y, 1);
    Slices(x, y, n);
    FirstAccentPiece(x, n);
    FirstAccentPiece(x + y, n);
  }

  lemma {:induction false} Slices(x: string, y: string, n: nat)
    requires n <= |x|
    ensures (x + y)[..n] == x[..n] && (x + y)[n..] == x[n..] + y
  {
  }

  lemma {:induction false} OnlyPieceGrows(x: string, y: string, m: nat)
    requires x != "" && 1 + AccentsAt(x[1..]) == |x| && m == 1 + AccentsAt((x + y)[1..])
    ensures Grown(AccentPieces(x), AccentPieces(x + y))
  {
    AccentsGoOn(x[1..], y);
    Slices(x, y, 1);
    FirstAccentPiece(x, |x|);
    FirstAccentPiece(x + y, m);
    assert x[..|x|] == x && x[|x|..] == "" && AccentPieces("") == [];
    assert x <= (x + y)[..m];
  }

  lemma {:induction false} AccentPiecesGrow(x: string, y: string)
    requires x != ""
    ensures Grown(AccentPieces(x), AccentPieces(x + y))
  {
    var n := 1 + AccentsAt(x[1..]);
    if n < |x| {
      AccentPiecesGrow(x[n..], y);
      FirstPieceStays(x, y, n);
      GrownBehind(x[..n], AccentPieces(x[n..]), AccentPieces(x[n..] + y));
    } else {
      OnlyPieceGrows(x, y, 1 + AccentsAt((x + y)[1..]));
    }
  }

  lemma {:induction false} AccentPiecesReadForward()
    ensures ReadsForward(AccentPieces)
  {
    AccentPiecesSegment();
    forall x, y | x != "" ensures Grown(AccentPieces(x), AccentPieces(x + y)) {
      AccentPiecesGrow(x, y);
    }
  }

  lemma {:induction false} AccentExamples()
    ensures AccentPieces("e") == ["e"] && AccentPieces(['e', ACUTE]) == [['e', ACUTE]]
    ensures AccentPieces([ACUTE, 'x']) == [[ACUTE], "x"]
  {
    assert AccentPieces("") == [] && AccentsAt("") == 0;
    assert "e"[1..] == "" && "e"[..1] == "e" && "x"[1..] == "" && "x"[..1] == "x";
    assert AccentPieces("e") == ["e"] && AccentPieces("x") == ["x"];
    var joined := ['e', ACUTE];
    assert joined[1..] == [ACUTE] && [ACUTE][1..] == "" && AccentsAt([ACUTE]) == 1;
    assert joined[..2] == joined && joined[2..] == "";
    var accent := [ACUTE, 'x'];
    assert accent[1..] == "x" && AccentsAt("x") == 0 && accent[..1] == [ACUTE];
  }

  lemma {:induction false} AccentAffixes()
    ensures AffixesOf("e", ['e', ACUTE, 'x'], SameChar) == Affixes(1, 0)
    ensures PlainInserted("e", ['e', ACUTE, 'x']) == [ACUTE, 'x']
  {
    var a, b := "e", ['e', ACUTE, 'x'];
    PrefixIsUnique(a, b, SameChar, 1);
    assert a[1..] == "";
  }

  /** Where the caret does not fit: `e`, then an accent and an `x`. The first entry holds one
      piece, the accented letter, and puts the caret behind two. */
  lemma {:induction false} CaretBehindTheEnd(caret: int)
    ensures ReadsForward(AccentPieces)
    ensures var before, after := Snapshot([Text("e")], caret), Snapshot([Text(['e', ACUTE, 'x'])], caret);
            var entries := UndoEntries(before, after, true, AccentPieces);
            |entries| == 2 && entries[1] == Snapshot([Text(['e', ACUTE])], 2)
            && |Tokens(entries[1].parts, AccentPieces)| == 1
  {
    AccentPiecesReadForward();
    var before, after := Snapshot([Text("e")], caret), Snapshot([Text(['e', ACUTE, 'x'])], caret);
    PlainTextOf("e");
    PlainTextOf(['e', ACUTE, 'x']);
    PlainUndo(before, after, "e", ['e', ACUTE, 'x'], AccentPieces);
    AccentEntries(before);
    OneAccentToken();
  }

  lemma {:induction false} PlainUndo(before: Snapshot, after: Snapshot, a: string, b: string, split: Segmenter)
    requires PlainText(before.parts) == Some(a) && PlainText(after.parts) == Some(b)
    ensures UndoEntries(before, after, true, split) == PlainEntries(before, a, b, true, split)
  {
  }

  lemma {:induction false} OneAccentToken()
    ensures |Tokens([Text(['e', ACUTE])], AccentPieces)| == 1
  {
    AccentPiecesSegment();
    AccentExamples();
    PlainTextOf(['e', ACUTE]);
    PlainTokens(['e', ACUTE], [Text(['e', ACUTE])], AccentPieces);
  }

  lemma {:induction false} AccentEntries(before: Snapshot)
    ensures var entries := PlainEntries(before, "e", ['e', ACUTE, 'x'], true, AccentPieces);
            |entries| == 2 && entries[1] == Snapshot([Text(['e', ACUTE])], 2)
  {
    AccentExamples();
    AccentAffixes();
    var b := ['e', ACUTE, 'x'];
    assert b[..1] == "e" && b[3..] == "";
    SecondEntry(before, "e", b, [ACUTE], "x", AccentPieces);
    assert "e" + [ACUTE] + "" == ['e', ACUTE];
  }

  lemma {:induction false} SecondEntry(
      before: Snapshot, a: string, b: string, first: string, second: string, split: Segmenter)
    requires AffixesOf(a, b, SameChar) == Affixes(|a|, 0) && split(PlainInserted(a, b)) == [first, second]
    requires PlainInserted(a, b) != ""
    ensures var entries := PlainEntries(before, a, b, true, split);
            |entries| == 2
            && entries[1] == Snapshot([Text(b[..|a|] + first + b[|b|..])], |split(b[..|a|])| + 1)
  {
    assert [first, second][..1] == [first];
    ConcatOne(first);
  }
}
