/** What the composer derives from two versions of its content: the undo entries between
    them, and the clean-up after the browser deleted a reference. */
module ComposerHistory {
  import opened Prelude
  import opened Composer

  // ------------------------------------------------------ content identity

  /** A part without the name an attachment is shown with: what `SameToken` compares. */
  function Key(part: Part): Part {
    if part.AttachmentRef? then AttachmentRef(part.path, "") else part
  }

  function Keys(parts: seq<Part>): (keys: seq<Part>)
    ensures |keys| == |parts|
  {
    seq(|parts|, i requires 0 <= i < |parts| => Key(parts[i]))
  }

  /** The content of a snapshot, whatever way it is cut into parts. */
  function Contents(parts: seq<Part>): seq<Part> {
    Keys(NormalizeParts(parts))
  }

  lemma {:induction false} KeysPlus(a: seq<Part>, b: seq<Part>)
    ensures Keys(a + b) == Keys(a) + Keys(b)
  {
  }

  lemma {:induction false} KeysOfAddToken(parts: seq<Part>, token: Part)
    ensures Keys(AddToken(parts, token)) == AddToken(Keys(parts), Key(token))
  {
    var last := |parts| - 1;
    if token.Text? && parts != [] && parts[last].Text? {
      var joined := Text(parts[last].text + token.text);
      KeysPlus(parts[..last], [joined]);
      assert Keys(parts[..last]) == Keys(parts)[..last];
      assert Keys([joined]) == [joined];
    } else {
      KeysPlus(parts, [token]);
      assert Keys([token]) == [Key(token)];
    }
  }

  lemma {:induction false} KeysOfAddTokens(parts: seq<Part>, tokens: seq<Part>)
    ensures Keys(AddTokens(parts, tokens)) == AddTokens(Keys(parts), Keys(tokens))
  {
    if tokens != [] {
      var init, last := tokens[..|tokens| - 1], tokens[|tokens| - 1];
      KeysOfAddTokens(parts, init);
      KeysOfAddToken(AddTokens(parts, init), last);
      assert Keys(tokens)[..|tokens| - 1] == Keys(init);
    }
  }

  lemma {:induction false} KeysOfTokens(parts: seq<Part>, split: Segmenter)
    ensures Keys(TokensOfParts(parts, split)) == TokensOfParts(Keys(parts), split)
  {
    if parts != [] {
      var init, last := parts[..|parts| - 1], parts[|parts| - 1];
      KeysOfTokens(init, split);
      KeysPlus(TokensOfParts(init, split), TokensOfPart(last, split));
      KeysOfPart(last, split);
      KeysInit(parts, init);
    }
  }

  lemma {:induction false} KeysOfPart(part: Part, split: Segmenter)
    ensures Keys(TokensOfPart(part, split)) == TokensOfPart(Key(part), split)
  {
  }

  lemma {:induction false} KeysInit(parts: seq<Part>, init: seq<Part>)
    requires parts != [] && init == parts[..|parts| - 1]
    ensures Keys(parts)[..|parts| - 1] == Keys(init) && Keys(parts)[|parts| - 1] == Key(parts[|parts| - 1])
  {
  }

  /** Contents are the same exactly when their tokens are, however text is segmented. */
  lemma {:induction false} ContentsByTokens(a: seq<Part>, b: seq<Part>, split: Segmenter)
    requires Segments(split)
    ensures Contents(a) == Contents(b) <==> Keys(Tokens(a, split)) == Keys(Tokens(b, split))
  {
    KeysOfTokens(NormalizeParts(a), split);
    KeysOfTokens(NormalizeParts(b), split);
    ContentsFromTokens(a, split);
    ContentsFromTokens(b, split);
  }

  lemma {:induction false} ContentsFromTokens(parts: seq<Part>, split: Segmenter)
    requires Segments(split)
    ensures Contents(parts) == PartsFromTokens(Keys(Tokens(parts, split)))
  {
    TokensRoundTrip(parts, split);
    KeysOfAddTokens([], Tokens(parts, split));
    assert Keys([]) == [];
  }

  /** Tokens of which parts can be made without any clean-up. */
  ghost predicate Clean(tokens: seq<Part>) {
    forall i | 0 <= i < |tokens| && tokens[i].Text? :: tokens[i].text != "" && CARET !in tokens[i].text
  }

  lemma {:induction false} PartsOfCleanTokens(tokens: seq<Part>)
    requires Clean(tokens)
    ensures Normal(PartsFromTokens(tokens))
  {
    if tokens != [] {
      var init, last := tokens[..|tokens| - 1], tokens[|tokens| - 1];
      PartsOfCleanTokens(init);
      AddCleanToken(PartsFromTokens(init), last);
    }
  }

  lemma {:induction false} AddCleanToken(parts: seq<Part>, token: Part)
    requires Normal(parts) && (token.Text? ==> token.text != "" && CARET !in token.text)
    ensures Normal(AddToken(parts, token))
  {
  }

  lemma {:induction false} MemberOfConcat(pieces: seq<string>, i: nat, c: char)
    requires i < |pieces| && c in pieces[i]
    ensures c in Concat(pieces)
  {
    if i > 0 { MemberOfConcat(pieces[1..], i - 1, c); }
  }

  lemma {:induction false} PieceTokensAreClean(text: string, split: Segmenter)
    requires Segments(split) && CARET !in text
    ensures Clean(TextTokens(split(text)))
  {
    var pieces := split(text);
    assert Concat(pieces) == text;
    forall i | 0 <= i < |pieces| ensures pieces[i] != "" && CARET !in pieces[i] {
      assert pieces[i] in pieces;
      if CARET in pieces[i] { MemberOfConcat(pieces, i, CARET); }
    }
  }

  lemma {:induction false} NormalTokensAreClean(parts: seq<Part>, split: Segmenter)
    requires Segments(split) && Normal(parts)
    ensures Clean(TokensOfParts(parts, split))
  {
    if parts != [] {
      NormalInit(parts);
      NormalTokensAreClean(parts[..|parts| - 1], split);
      if parts[|parts| - 1].Text? { PieceTokensAreClean(parts[|parts| - 1].text, split); }
    }
  }

  lemma {:induction false} TokensAreClean(parts: seq<Part>, split: Segmenter)
    requires Segments(split)
    ensures Clean(Tokens(parts, split))
  {
    NormalizeIsNormal(parts);
    NormalTokensAreClean(NormalizeParts(parts), split);
  }

  lemma {:induction false} ContentsOfCleanTokens(tokens: seq<Part>)
    requires Clean(tokens)
    ensures Contents(PartsFromTokens(tokens)) == PartsFromTokens(Keys(tokens))
  {
    PartsOfCleanTokens(tokens);
    NormalIsKept(PartsFromTokens(tokens));
    KeysOfAddTokens([], tokens);
    assert Keys([]) == [];
  }

  // ----------------------------------------------------------- plain text

  /** The text of content without references. Normal content of that kind has at most
      one part. */
  function PlainText(parts: seq<Part>): Option<string> {
    var n := NormalizeParts(parts);
    if n == [] then Some("") else if |n| == 1 && n[0].Text? then Some(n[0].text) else None
  }

  method ComposerPlainText(parts: seq<Part>) returns (plain: Option<string>)
    ensures plain == PlainText(parts)
  {
    var normalized := NormalizeComposerContentParts(parts);
    NormalizeIsNormal(parts);
    var text := "";
    for i := 0 to |normalized|
      invariant i <= 1
      invariant i == 0 ==> text == ""
      invariant i == 1 ==> normalized[0].Text? && text == normalized[0].text
    {
      if !normalized[i].Text? { return None; }
      text := text + normalized[i].text;
    }
    plain := Some(text);
  }

  lemma {:induction false} PlainContents(a: seq<Part>, b: seq<Part>)
    requires PlainText(a).Some? && PlainText(b).Some?
    ensures Contents(a) == Contents(b) <==> PlainText(a) == PlainText(b)
  {
    NormalizeIsNormal(a);
    NormalizeIsNormal(b);
    var x, y := NormalizeParts(a), NormalizeParts(b);
    assert |x| == 1 ==> Keys(x) == [x[0]];
    assert |y| == 1 ==> Keys(y) == [y[0]];
    assert |x| == 1 ==> x == [Text(x[0].text)];
    assert |y| == 1 ==> y == [Text(y[0].text)];
  }

  // --------------------------------------------------------------- undo

  /** The state of a sequence when `k` of the elements after `prefix` are in. */
  function Typed<T>(after: seq<T>, r: Affixes, k: nat): seq<T>
    requires r.prefix + k + r.suffix <= |after|
  {
    after[..r.prefix + k] + after[|after| - r.suffix..]
  }

  function PlainEntry(
      before: Snapshot, prefix: string, pieces: seq<string>, suffix: string, split: Segmenter, k: nat): Snapshot
    requires k <= |pieces|
  {
    if k == 0 then before
    else Snapshot([Text(prefix + Concat(pieces[..k]) + suffix)], |split(prefix)| + k)
  }

  function PlainInserted(a: string, b: string): string {
    var r := AffixesOf(a, b, SameChar);
    b[r.prefix..|b| - r.suffix]
  }

  function PlainEntries(before: Snapshot, a: string, b: string, splitInserted: bool, split: Segmenter): seq<Snapshot> {
    if a == b then []
    else if !splitInserted then [before]
    else
      var r := AffixesOf(a, b, SameChar);
      var inserted := PlainInserted(a, b);
      if |a| - r.prefix - r.suffix > 0 || inserted == "" then [before]
      else
        var pieces := split(inserted);
        if |pieces| <= 1 then [before]
        else
          seq(|pieces|, k requires 0 <= k < |pieces| =>
            PlainEntry(before, b[..r.prefix], pieces, b[|b| - r.suffix..], split, k))
  }

  function TokenEntry(before: Snapshot, tokens: seq<Part>, r: Affixes, k: nat): Snapshot
    requires r.prefix + k + r.suffix <= |tokens|
  {
    if k == 0 then before else Snapshot(PartsFromTokens(Typed(tokens, r, k)), r.prefix + k)
  }

  function TokenEntries(before: Snapshot, a: seq<Part>, b: seq<Part>, splitInserted: bool): seq<Snapshot> {
    var r := AffixesOf(a, b, SameToken);
    var removed, inserted := |a| - r.prefix - r.suffix, |b| - r.prefix - r.suffix;
    if removed == 0 && inserted == 0 then []
    else if !splitInserted || removed > 0 || inserted <= 1 then [before]
    else seq(inserted, k requires 0 <= k < inserted => TokenEntry(before, b, r, k))
  }

  function UndoEntries(before: Snapshot, after: Snapshot, splitInserted: bool, split: Segmenter): seq<Snapshot> {
    var a, b := PlainText(before.parts), PlainText(after.parts);
    if a.Some? && b.Some? then PlainEntries(before, a.value, b.value, splitInserted, split)
    else TokenEntries(before, Tokens(before.parts, split), Tokens(after.parts, split), splitInserted)
  }

  method PlainUndoEntries(before: Snapshot, a: string, b: string, splitInserted: bool, split: Segmenter)
      returns (entries: seq<Snapshot>)
    ensures entries == PlainEntries(before, a, b, splitInserted, split)
  {
    if a == b { return []; }
    if !splitInserted { return [before]; }
    var r := CommonAffixes(a, b, SameChar);
    var removedCount := |a| - r.prefix - r.suffix;
    var insertedText := b[r.prefix..|b| - r.suffix];
    if removedCount > 0 || insertedText == "" { return [before]; }
    var pieces := split(insertedText);
    if |pieces| <= 1 { return [before]; }
    var prefix, suffix := b[..r.prefix], b[|b| - r.suffix..];
    entries := seq(|pieces|, k requires 0 <= k < |pieces| => PlainEntry(before, prefix, pieces, suffix, split, k));
  }

  method TokenUndoEntries(before: Snapshot, a: seq<Part>, b: seq<Part>, splitInserted: bool)
      returns (entries: seq<Snapshot>)
    ensures entries == TokenEntries(before, a, b, splitInserted)
  {
    var r := CommonAffixes(a, b, SameToken);
    var removedCount := |a| - r.prefix - r.suffix;
    var insertedCount := |b| - r.prefix - r.suffix;
    if removedCount == 0 && insertedCount == 0 { return []; }
    if !splitInserted || removedCount > 0 || insertedCount <= 1 { return [before]; }
    entries := seq(insertedCount, k requires 0 <= k < insertedCount => TokenEntry(before, b, r, k));
  }

  method ComposerUndoEntries(before: Snapshot, after: Snapshot, splitInserted: bool, split: Segmenter)
      returns (entries: seq<Snapshot>)
    ensures entries == UndoEntries(before, after, splitInserted, split)
  {
    var beforeText := ComposerPlainText(before.parts);
    var afterText := ComposerPlainText(after.parts);
    if beforeText.Some? && afterText.Some? {
      entries := PlainUndoEntries(before, beforeText.value, afterText.value, splitInserted, split);
    } else {
      var beforeTokens := ComposerContentTokens(before.parts, split);
      var afterTokens := ComposerContentTokens(after.parts, split);
      entries := TokenUndoEntries(before, beforeTokens, afterTokens, splitInserted);
    }
  }

  lemma {:induction false} AffixesAsKeys(a: seq<Part>, b: seq<Part>)
    ensures var r := AffixesOf(a, b, SameToken);
            Keys(a[..r.prefix]) == Keys(b[..r.prefix]) && Keys(a[|a| - r.suffix..]) == Keys(b[|b| - r.suffix..])
  {
    AffixesAgree(a, b, SameToken);
    var r := AffixesOf(a, b, SameToken);
    var x, y := a[|a| - r.suffix..], b[|b| - r.suffix..];
    forall i | 0 <= i < r.suffix ensures Key(x[i]) == Key(y[i]) {
      assert SameToken(FromEnd(a, r.suffix - 1 - i), FromEnd(b, r.suffix - 1 - i));
    }
  }

  /** `b` is `a` with something put in at `at`. */
  ghost predicate Inserts<T>(a: seq<T>, b: seq<T>, at: nat) {
    at <= |a| <= |b| && a[..at] == b[..at] && a[at..] == b[|b| - |a| + at..]
  }

  lemma {:induction false} InsertsCover(a: seq<Part>, b: seq<Part>, at: nat)
    requires Inserts(Keys(a), Keys(b), at)
    ensures var r := AffixesOf(a, b, SameToken); r.prefix + r.suffix == |a|
  {
    var x, y := Keys(a), Keys(b);
    forall i | 0 <= i < at ensures SameToken(a[i], b[i]) {
      assert x[..at][i] == y[..at][i];
    }
    forall i: nat | i < |a| - at ensures SameToken(FromEnd(a, i), FromEnd(b, i)) {
      assert x[at..][|a| - at - 1 - i] == y[|b| - |a| + at..][|a| - at - 1 - i];
    }
    AffixesCover(a, b, SameToken, at);
  }

  lemma {:induction false} CoverInserts(a: seq<Part>, b: seq<Part>)
    requires var r := AffixesOf(a, b, SameToken); r.prefix + r.suffix == |a|
    ensures Inserts(Keys(a), Keys(b), AffixesOf(a, b, SameToken).prefix)
  {
    AffixesAsKeys(a, b);
    var r := AffixesOf(a, b, SameToken);
    var x, y := Keys(a), Keys(b);
    assert x[..r.prefix] == Keys(a[..r.prefix]) && y[..r.prefix] == Keys(b[..r.prefix]);
    assert x[r.prefix..] == Keys(a[|a| - r.suffix..]) && y[|b| - r.suffix..] == Keys(b[|b| - r.suffix..]);
  }

  lemma {:induction false} PlainInsertsCover(a: string, b: string, at: nat)
    requires Inserts(a, b, at)
    ensures var r := AffixesOf(a, b, SameChar); r.prefix + r.suffix == |a|
  {
    forall i | 0 <= i < at ensures SameChar(a[i], b[i]) {
      assert a[..at][i] == b[..at][i];
    }
    forall i: nat | i < |a| - at ensures SameChar(FromEnd(a, i), FromEnd(b, i)) {
      assert a[at..][|a| - at - 1 - i] == b[|b| - |a| + at..][|a| - at - 1 - i];
    }
    AffixesCover(a, b, SameChar, at);
  }

  lemma {:induction false} PlainCoverInserts(a: string, b: string)
    requires var r := AffixesOf(a, b, SameChar); r.prefix + r.suffix == |a|
    ensures Inserts(a, b, AffixesOf(a, b, SameChar).prefix)
  {
    AffixesAgree(a, b, SameChar);
    var r := AffixesOf(a, b, SameChar);
    forall i | 0 <= i < r.suffix ensures a[r.prefix..][i] == b[|b| - r.suffix..][i] {
      assert SameChar(FromEnd(a, r.suffix - 1 - i), FromEnd(b, r.suffix - 1 - i));
    }
  }

  lemma {:induction false} TokenEntriesEmpty(before: Snapshot, a: seq<Part>, b: seq<Part>, splitInserted: bool)
    ensures TokenEntries(before, a, b, splitInserted) == [] <==> Keys(a) == Keys(b)
  {
    if Keys(a) == Keys(b) {
      assert |a| == |Keys(a)| == |b|;
      InsertsCover(a, b, |a|);
    }
    var r := AffixesOf(a, b, SameToken);
    if r.prefix + r.suffix == |a| == |b| {
      CoverInserts(a, b);
      assert Keys(a) == Keys(a)[..r.prefix] + Keys(a)[r.prefix..];
      assert Keys(b) == Keys(b)[..r.prefix] + Keys(b)[r.prefix..];
    }
  }

  /** There is nothing to undo exactly when the two contents are the same, with or without
      references, for every segmentation. */
  lemma {:induction false} NothingToUndo(before: Snapshot, after: Snapshot, splitInserted: bool, split: Segmenter)
    requires Segments(split)
    ensures UndoEntries(before, after, splitInserted, split) == [] <==> Contents(before.parts) == Contents(after.parts)
  {
    if PlainText(before.parts).Some? && PlainText(after.parts).Some? {
      PlainContents(before.parts, after.parts);
    } else {
      ContentsByTokens(before.parts, after.parts, split);
      TokenEntriesEmpty(before, Tokens(before.parts, split), Tokens(after.parts, split), splitInserted);
    }
  }

  /** Undoing ends at `before`: it is the first entry whenever there is one. */
  lemma {:induction false} FirstEntryIsBefore(before: Snapshot, after: Snapshot, splitInserted: bool, split: Segmenter)
    ensures var e := UndoEntries(before, after, splitInserted, split); e != [] ==> e[0] == before
    ensures !splitInserted ==> |UndoEntries(before, after, splitInserted, split)| <= 1
  {
  }

  // The entries between two texts.

  lemma {:induction false} PlainTextOf(text: string)
    requires CARET !in text
    ensures PlainText([Text(text)]) == Some(text)
  {
    StripRemoves(text);
    assert [Text(text)][..0] == [] && NormalizeParts([]) == [];
  }

  lemma {:induction false} PlainHasNoCaret(parts: seq<Part>)
    requires PlainText(parts).Some?
    ensures CARET !in PlainText(parts).value
  {
    NormalizeIsNormal(parts);
  }

  lemma {:induction false} ConcatPrefixMember(pieces: seq<string>, k: nat, c: char)
    requires k <= |pieces| && c in Concat(pieces[..k])
    ensures c in Concat(pieces)
  {
    assert pieces == pieces[..k] + pieces[k..];
    ConcatAppend(pieces[..k], pieces[k..]);
  }

  /** The text between the `k`-th piece and the next. */
  function PlainState(before: string, after: string, split: Segmenter, k: nat): string
    requires k <= |split(PlainInserted(before, after))|
  {
    var r := AffixesOf(before, after, SameChar);
    after[..r.prefix] + Concat(split(PlainInserted(before, after))[..k]) + after[|after| - r.suffix..]
  }

  lemma {:induction false} PlainStateHasNoCaret(a: string, b: string, split: Segmenter, k: nat)
    requires Segments(split) && CARET !in b
    requires k <= |split(PlainInserted(a, b))|
    ensures CARET !in PlainState(a, b, split, k)
  {
    var inserted := PlainInserted(a, b);
    assert Concat(split(inserted)) == inserted;
    if CARET in Concat(split(inserted)[..k]) { ConcatPrefixMember(split(inserted), k, CARET); }
  }

  lemma {:induction false} PlainStatesStart(a: string, b: string, split: Segmenter)
    requires var r := AffixesOf(a, b, SameChar); r.prefix + r.suffix == |a|
    ensures PlainState(a, b, split, 0) == a
  {
    PlainCoverInserts(a, b);
    var r := AffixesOf(a, b, SameChar);
    assert split(PlainInserted(a, b))[..0] == [];
    assert a == a[..r.prefix] + a[r.prefix..];
    assert b[..r.prefix] + "" == b[..r.prefix];
  }

  lemma {:induction false} PlainStatesEnd(a: string, b: string, split: Segmenter)
    requires Segments(split)
    ensures PlainState(a, b, split, |split(PlainInserted(a, b))|) == b
  {
    var r, inserted := AffixesOf(a, b, SameChar), PlainInserted(a, b);
    assert split(inserted)[..|split(inserted)|] == split(inserted);
    assert Concat(split(inserted)) == inserted;
    assert b == b[..r.prefix] + inserted + b[|b| - r.suffix..];
  }

  lemma {:induction false} PlainStateStep(a: string, b: string, split: Segmenter, k: nat)
    requires k < |split(PlainInserted(a, b))|
    ensures var s := PlainState(a, b, split, k);
            var at := AffixesOf(a, b, SameChar).prefix + |Concat(split(PlainInserted(a, b))[..k])|;
            at <= |s| && PlainState(a, b, split, k + 1) == s[..at] + split(PlainInserted(a, b))[k] + s[at..]
  {
    var pieces := split(PlainInserted(a, b));
    ConcatLast(pieces[..k + 1]);
    assert pieces[..k + 1][..k] == pieces[..k];
    var r := AffixesOf(a, b, SameChar);
    var left, right := b[..r.prefix], b[|b| - r.suffix..];
    var s := left + Concat(pieces[..k]) + right;
    assert s == PlainState(a, b, split, k);
    var at := |left + Concat(pieces[..k])|;
    assert s[..at] == left + Concat(pieces[..k]) && s[at..] == right;
    Regroup3(left, Concat(pieces[..k]), pieces[k]);
  }

  lemma {:induction false} PlainEntriesLength(before: Snapshot, a: string, b: string, split: Segmenter)
    requires Segments(split) && a != b && (var r := AffixesOf(a, b, SameChar); r.prefix + r.suffix == |a|)
    ensures var e := PlainEntries(before, a, b, true, split);
            var pieces := split(PlainInserted(a, b));
            |e| == |pieces| && forall k | 0 < k < |pieces| ::
              e[k] == Snapshot([Text(PlainState(a, b, split, k))], |split(b[..AffixesOf(a, b, SameChar).prefix])| + k)
  {
    var inserted := PlainInserted(a, b);
    PlainStatesStart(a, b, split);
    PlainStatesEnd(a, b, split);
    assert Concat(split(inserted)) == inserted;
    assert inserted != "" && split(inserted) != [];
  }

  /** Text that was only inserted into text is undone piece by piece: there is one entry per
      piece, the `k`-th holds the first `k` pieces, all of them give `after`, none of them
      `before`. */
  lemma {:induction false} PlainInsertionUnfolds(before: Snapshot, after: Snapshot, split: Segmenter, at: nat)
    requires Segments(split) && PlainText(before.parts).Some? && PlainText(after.parts).Some?
    requires PlainText(before.parts) != PlainText(after.parts)
    requires Inserts(PlainText(before.parts).value, PlainText(after.parts).value, at)
    ensures var a, b := PlainText(before.parts).value, PlainText(after.parts).value;
            var entries := UndoEntries(before, after, true, split);
            var r, pieces := AffixesOf(a, b, SameChar), split(PlainInserted(a, b));
            && |entries| == |pieces| > 0
            && PlainState(a, b, split, 0) == a && PlainState(a, b, split, |pieces|) == b
            && (forall k | 0 <= k < |pieces| :: PlainText(entries[k].parts) == Some(PlainState(a, b, split, k)))
            && (forall k | 0 < k < |pieces| :: entries[k].caretOffset == |split(a[..r.prefix])| + k)
  {
    var a, b := PlainText(before.parts).value, PlainText(after.parts).value;
    PlainInsertsCover(a, b, at);
    PlainCoverInserts(a, b);
    PlainEntriesLength(before, a, b, split);
    PlainStatesStart(a, b, split);
    PlainStatesEnd(a, b, split);
    PlainHasNoCaret(after.parts);
    FirstEntryIsBefore(before, after, true, split);
    NothingToUndo(before, after, true, split);
    PlainContents(before.parts, after.parts);
    forall k | 0 < k < |split(PlainInserted(a, b))|
      ensures PlainText(UndoEntries(before, after, true, split)[k].parts) == Some(PlainState(a, b, split, k))
    {
      PlainStateHasNoCaret(a, b, split, k);
      PlainTextOf(PlainState(a, b, split, k));
    }
  }

  /** More than one entry means that text was inserted into text, and nothing else. */
  lemma {:induction false} PlainChainsAreInsertions(
      before: Snapshot, after: Snapshot, splitInserted: bool, split: Segmenter)
    requires PlainText(before.parts).Some? && PlainText(after.parts).Some?
    requires |UndoEntries(before, after, splitInserted, split)| > 1
    ensures splitInserted
    ensures var a, b := PlainText(before.parts).value, PlainText(after.parts).value;
            Inserts(a, b, AffixesOf(a, b, SameChar).prefix)
  {
    PlainCoverInserts(PlainText(before.parts).value, PlainText(after.parts).value);
  }

  // The entries between contents with references.

  lemma {:induction false} TypedEnds(a: seq<Part>, b: seq<Part>, at: nat)
    requires Inserts(Keys(a), Keys(b), at)
    ensures var r := AffixesOf(a, b, SameToken);
            r.prefix + r.suffix == |a| && Keys(Typed(b, r, 0)) == Keys(a) && Typed(b, r, |b| - |a|) == b
  {
    InsertsCover(a, b, at);
    AffixesAsKeys(a, b);
    var r := AffixesOf(a, b, SameToken);
    SameKeysJoined(a[..r.prefix], a[|a| - r.suffix..], b[..r.prefix], b[|b| - r.suffix..]);
    assert a == a[..r.prefix] + a[|a| - r.suffix..];
  }

  lemma {:induction false} SameKeysJoined(u: seq<Part>, v: seq<Part>, x: seq<Part>, y: seq<Part>)
    requires Keys(u) == Keys(x) && Keys(v) == Keys(y)
    ensures Keys(u + v) == Keys(x + y)
  {
    KeysPlus(u, v);
    KeysPlus(x, y);
  }

  /** `longer` is `s` with one token more, put in at `at`. */
  ghost predicate OneMore<T>(s: seq<T>, longer: seq<T>, at: nat, token: T) {
    at <= |s| && longer == s[..at] + [token] + s[at..]
  }

  /** Each state has one token more than the one before. */
  lemma {:induction false} TypedStep<T>(b: seq<T>, r: Affixes, k: nat)
    requires r.prefix + k + r.suffix < |b|
    ensures OneMore(Typed(b, r, k), Typed(b, r, k + 1), r.prefix + k, b[r.prefix + k])
  {
    var at := r.prefix + k;
    assert b[..at + 1] == b[..at] + [b[at]];
    assert Typed(b, r, k)[..at] == b[..at] && Typed(b, r, k)[at..] == b[|b| - r.suffix..];
  }

  lemma {:induction false} TypedIsClean(b: seq<Part>, r: Affixes, k: nat)
    requires r.prefix + k + r.suffix <= |b| && Clean(b)
    ensures Clean(Typed(b, r, k))
  {
  }

  /** The entries lead from `a` to `b` token by token: there is one per token inserted, the
      `k`-th holds the first `k` of them, with the caret behind the last; each has one token
      more than the one before; none of them is `a`, and all of them give `b`. */
  ghost predicate TokenByToken(entries: seq<Snapshot>, a: seq<Part>, b: seq<Part>, r: Affixes) {
    && |entries| == |b| - |a| && r.prefix + |entries| + r.suffix == |b|
    && Keys(Typed(b, r, 0)) == Keys(a) && Typed(b, r, |entries|) == b
    && (forall k | 0 <= k < |entries| :: Contents(entries[k].parts) == PartsFromTokens(Keys(Typed(b, r, k))))
    && (forall k | 0 <= k < |entries| ::
          OneMore(Typed(b, r, k), Typed(b, r, k + 1), r.prefix + k, b[r.prefix + k]))
    && (forall k | 0 < k < |entries| :: entries[k].caretOffset == r.prefix + k <= |Typed(b, r, k)|)
  }

  lemma {:induction false} TypedContents(b: seq<Part>, r: Affixes, k: nat)
    requires Clean(b) && r.prefix + k + r.suffix <= |b|
    ensures Contents(PartsFromTokens(Typed(b, r, k))) == PartsFromTokens(Keys(Typed(b, r, k)))
  {
    TypedIsClean(b, r, k);
    ContentsOfCleanTokens(Typed(b, r, k));
  }

  lemma {:induction false} TokenEntriesUnfold(
    before: Snapshot, a: seq<Part>, b: seq<Part>, at: nat, r: Affixes, entries: seq<Snapshot>)
    requires Inserts(Keys(a), Keys(b), at) && Clean(b) && Contents(before.parts) == PartsFromTokens(Keys(a))
    requires r == AffixesOf(a, b, SameToken) && entries == TokenEntries(before, a, b, true)
    ensures TokenByToken(entries, a, b, r)
  {
    TypedEnds(a, b, at);
    TokenEntriesAre(before, a, b, at, r, entries);
    EntriesHold(before, a, b, r, entries);
    forall k: nat | k < |entries|
      ensures OneMore(Typed(b, r, k), Typed(b, r, k + 1), r.prefix + k, b[r.prefix + k])
    {
      TypedStep(b, r, k);
    }
  }

  lemma {:induction false} EntriesHold(before: Snapshot, a: seq<Part>, b: seq<Part>, r: Affixes, entries: seq<Snapshot>)
    requires Clean(b) && Contents(before.parts) == PartsFromTokens(Keys(a)) && r.prefix + |entries| + r.suffix == |b|
    requires Keys(Typed(b, r, 0)) == Keys(a) && (entries != [] ==> entries[0] == before)
    requires forall k | 0 < k < |entries| :: entries[k] == Snapshot(PartsFromTokens(Typed(b, r, k)), r.prefix + k)
    ensures forall k | 0 <= k < |entries| :: Contents(entries[k].parts) == PartsFromTokens(Keys(Typed(b, r, k)))
  {
    forall k | 0 <= k < |entries| ensures Contents(entries[k].parts) == PartsFromTokens(Keys(Typed(b, r, k))) {
      TypedContents(b, r, k);
    }
  }

  /** Content that was only inserted is undone token by token. */
  lemma {:induction false} TokenInsertionUnfolds(before: Snapshot, after: Snapshot, split: Segmenter, at: nat)
    requires Segments(split) && !(PlainText(before.parts).Some? && PlainText(after.parts).Some?)
    requires Inserts(Keys(Tokens(before.parts, split)), Keys(Tokens(after.parts, split)), at)
    ensures var a, b := Tokens(before.parts, split), Tokens(after.parts, split);
            TokenByToken(UndoEntries(before, after, true, split), a, b, AffixesOf(a, b, SameToken))
  {
    var a, b := Tokens(before.parts, split), Tokens(after.parts, split);
    TokensAreClean(after.parts, split);
    ContentsFromTokens(before.parts, split);
    TokenEntriesUnfold(before, a, b, at, AffixesOf(a, b, SameToken), TokenEntries(before, a, b, true));
  }

  lemma {:induction false} TokenEntriesAre(
      before: Snapshot, a: seq<Part>, b: seq<Part>, at: nat, r: Affixes, entries: seq<Snapshot>)
    requires Inserts(Keys(a), Keys(b), at)
    requires r == AffixesOf(a, b, SameToken) && entries == TokenEntries(before, a, b, true)
    ensures |entries| == |b| - |a| && r.prefix + |entries| + r.suffix == |b|
    ensures entries != [] ==> entries[0] == before
    ensures forall k | 0 < k < |entries| ::
              entries[k] == Snapshot(PartsFromTokens(Typed(b, r, k)), r.prefix + k)
  {
    InsertsCover(a, b, at);
  }

  /** A chain of entries is made exactly for an insertion of two tokens or more. */
  lemma {:induction false} TokenChainsAreInsertions(
      before: Snapshot, after: Snapshot, splitInserted: bool, split: Segmenter)
    requires !(PlainText(before.parts).Some? && PlainText(after.parts).Some?)
    ensures var a, b := Tokens(before.parts, split), Tokens(after.parts, split);
            |UndoEntries(before, after, splitInserted, split)| > 1 <==>
            splitInserted && |b| >= |a| + 2 && exists at :: Inserts(Keys(a), Keys(b), at)
  {
    var a, b := Tokens(before.parts, split), Tokens(after.parts, split);
    var r := AffixesOf(a, b, SameToken);
    if r.prefix + r.suffix == |a| { CoverInserts(a, b); }
    if at :| Inserts(Keys(a), Keys(b), at) { InsertsCover(a, b, at); }
  }

  // ---------------------------------------------------- deleted references

  predicate IsReference(part: Part) {
    !part.Text?
  }

  predicate HasReference(parts: seq<Part>) {
    exists i | 0 <= i < |parts| :: IsReference(parts[i])
  }

  predicate IsLineBreak(token: Part) {
    token.Text? && (token.text == "\n" || token.text == "\r\n")
  }

  predicate OnlyLineBreaks(tokens: seq<Part>) {
    forall i | 0 <= i < |tokens| :: IsLineBreak(tokens[i])
  }

  function Removed<T>(s: seq<T>, r: Affixes): seq<T>
    requires r.prefix + r.suffix <= |s|
  {
    s[r.prefix..|s| - r.suffix]
  }

  /** From `a` to `b` a reference went away and only line breaks came in. */
  predicate LeavesScaffolding(a: seq<Part>, b: seq<Part>) {
    var r := AffixesOf(a, b, SameToken);
    HasReference(Removed(a, r)) && Removed(b, r) != [] && OnlyLineBreaks(Removed(b, r))
  }

  function KeptTokens(a: seq<Part>, b: seq<Part>): seq<Part> {
    Typed(b, AffixesOf(a, b, SameToken), 0)
  }

  /** The content and caret without the scaffolding, if there is any. */
  function Unscaffolded(a: seq<Part>, b: seq<Part>): Option<Snapshot> {
    if LeavesScaffolding(a, b)
    then Some(Snapshot(PartsFromTokens(KeptTokens(a, b)), AffixesOf(a, b, SameToken).prefix))
    else None
  }

  function CleanUp(before: Snapshot, after: Snapshot, split: Segmenter): Snapshot {
    if !HasReference(before.parts) then after
    else
      var result := Unscaffolded(Tokens(before.parts, split), Tokens(after.parts, split));
      if result.Some? then result.value else after
  }

  method RemoveScaffolding(a: seq<Part>, b: seq<Part>) returns (result: Option<Snapshot>)
    ensures result == Unscaffolded(a, b)
  {
    var r := CommonAffixes(a, b, SameToken);
    var removedTokens := a[r.prefix..|a| - r.suffix];
    var insertedTokens := b[r.prefix..|b| - r.suffix];
    var deletedReference := HasReference(removedTokens);
    var insertedOnlyLineBreaks := insertedTokens != [] && OnlyLineBreaks(insertedTokens);
    if !deletedReference || !insertedOnlyLineBreaks { return None; }
    var parts := ComposerPartsFromTokens(b[..r.prefix] + b[|b| - r.suffix..]);
    assert b[..r.prefix + 0] == b[..r.prefix];
    result := Some(Snapshot(parts, r.prefix));
  }

  method NormalizeComposerImageDeletionSnapshot(before: Snapshot, after: Snapshot, split: Segmenter)
      returns (result: Snapshot)
    ensures result == CleanUp(before, after, split)
  {
    if !HasReference(before.parts) { return after; }
    var beforeTokens := ComposerContentTokens(before.parts, split);
    var afterTokens := ComposerContentTokens(after.parts, split);
    var cleaned := RemoveScaffolding(beforeTokens, afterTokens);
    result := if cleaned.Some? then cleaned.value else after;
  }

  lemma {:induction false} ReferencesAreTokens(parts: seq<Part>, split: Segmenter)
    ensures HasReference(TokensOfParts(parts, split)) ==> HasReference(parts)
  {
    if parts != [] {
      var init := parts[..|parts| - 1];
      ReferencesAreTokens(init, split);
      if HasReference(TokensOfParts(parts, split)) && HasReference(init) {
        var i :| 0 <= i < |init| && IsReference(init[i]);
        assert IsReference(parts[i]);
      }
    }
  }

  lemma {:induction false} NormalizeKeepsReferences(parts: seq<Part>)
    ensures HasReference(NormalizeParts(parts)) ==> HasReference(parts)
  {
    if parts != [] {
      var init := parts[..|parts| - 1];
      NormalizeKeepsReferences(init);
      if HasReference(init) {
        var i :| 0 <= i < |init| && IsReference(init[i]);
        assert IsReference(parts[i]);
      }
    }
  }

  /** The early exit for content without references is only a shortcut. */
  lemma {:induction false} ShortcutIsSound(before: Snapshot, after: Snapshot, split: Segmenter)
    requires !HasReference(before.parts)
    ensures !LeavesScaffolding(Tokens(before.parts, split), Tokens(after.parts, split))
  {
    var a, b := Tokens(before.parts, split), Tokens(after.parts, split);
    ReferencesAreTokens(NormalizeParts(before.parts), split);
    NormalizeKeepsReferences(before.parts);
    var removed := Removed(a, AffixesOf(a, b, SameToken));
    forall i | 0 <= i < |removed| ensures !IsReference(removed[i]) {
      assert removed[i] == a[AffixesOf(a, b, SameToken).prefix + i];
    }
  }

  /** `kept` is `all` without one range. */
  ghost predicate Omits<T>(kept: seq<T>, all: seq<T>, from: nat, to: nat) {
    from <= to <= |all| && kept == all[..from] + all[to..]
  }

  lemma {:induction false} CleanUpByTokens(before: Snapshot, after: Snapshot, split: Segmenter)
    ensures var result := Unscaffolded(Tokens(before.parts, split), Tokens(after.parts, split));
            CleanUp(before, after, split) == if result.Some? then result.value else after
  {
    if !HasReference(before.parts) { ShortcutIsSound(before, after, split); }
  }

  lemma {:induction false} KeptOmits(a: seq<Part>, b: seq<Part>)
    ensures var r := AffixesOf(a, b, SameToken);
            && Omits(Keys(KeptTokens(a, b)), Keys(a), r.prefix, |a| - r.suffix)
            && Omits(KeptTokens(a, b), b, r.prefix, |b| - r.suffix)
  {
    AffixesAsKeys(a, b);
    var r := AffixesOf(a, b, SameToken);
    var left, right := b[..r.prefix], b[|b| - r.suffix..];
    KeptAre(a, b, left, right);
    KeysPlus(left, right);
    KeysOfRange(a, r.prefix, |a| - r.suffix);
  }

  lemma {:induction false} KeptAre(a: seq<Part>, b: seq<Part>, left: seq<Part>, right: seq<Part>)
    requires var r := AffixesOf(a, b, SameToken); left == b[..r.prefix] && right == b[|b| - r.suffix..]
    ensures KeptTokens(a, b) == left + right
  {
    assert b[..AffixesOf(a, b, SameToken).prefix + 0] == left;
  }

  lemma {:induction false} KeysOfRange(a: seq<Part>, i: nat, j: nat)
    requires i <= |a| && j <= |a|
    ensures Keys(a)[..i] == Keys(a[..i]) && Keys(a)[j..] == Keys(a[j..])
  {
  }

  /** What went away and what came in, seen in the two token sequences. */
  lemma {:induction false} ScaffoldingRanges(a: seq<Part>, b: seq<Part>)
    requires LeavesScaffolding(a, b)
    ensures var r := AffixesOf(a, b, SameToken);
            && (exists i | r.prefix <= i < |a| - r.suffix :: IsReference(a[i]))
            && r.prefix < |b| - r.suffix
            && (forall i | r.prefix <= i < |b| - r.suffix :: IsLineBreak(b[i]))
  {
    var r := AffixesOf(a, b, SameToken);
    var removed, inserted := Removed(a, r), Removed(b, r);
    var i :| 0 <= i < |removed| && IsReference(removed[i]);
    assert IsReference(a[r.prefix + i]);
    forall i | r.prefix <= i < |b| - r.suffix ensures IsLineBreak(b[i]) {
      assert inserted[i - r.prefix] == b[i];
    }
  }

  lemma {:induction false} CleanUpContents(a: seq<Part>, b: seq<Part>)
    requires Clean(b)
    ensures Normal(PartsFromTokens(KeptTokens(a, b)))
    ensures Contents(PartsFromTokens(KeptTokens(a, b))) == PartsFromTokens(Keys(KeptTokens(a, b)))
  {
    TypedIsClean(b, AffixesOf(a, b, SameToken), 0);
    PartsOfCleanTokens(KeptTokens(a, b));
    ContentsOfCleanTokens(KeptTokens(a, b));
  }

  /** `result` is what was there before the change without one range of tokens, a reference
      among them, and what the browser left without one range of line breaks. The caret
      stands where the range was. */
  ghost predicate CleanedUp(a: seq<Part>, b: seq<Part>, result: Snapshot) {
    var r, kept := AffixesOf(a, b, SameToken), KeptTokens(a, b);
    && Normal(result.parts) && Contents(result.parts) == PartsFromTokens(Keys(kept))
    && Omits(Keys(kept), Keys(a), r.prefix, |a| - r.suffix)
    && (exists i | r.prefix <= i < |a| - r.suffix :: IsReference(a[i]))
    && Omits(kept, b, r.prefix, |b| - r.suffix)
    && r.prefix < |b| - r.suffix
    && (forall i | r.prefix <= i < |b| - r.suffix :: IsLineBreak(b[i]))
    && result.caretOffset == r.prefix <= |kept|
  }

  lemma {:induction false} TokensCleanedUp(a: seq<Part>, b: seq<Part>)
    requires Clean(b) && LeavesScaffolding(a, b)
    ensures CleanedUp(a, b, Snapshot(PartsFromTokens(KeptTokens(a, b)), AffixesOf(a, b, SameToken).prefix))
  {
    KeptOmits(a, b);
    CleanUpContents(a, b);
    ScaffoldingRanges(a, b);
  }

  /** A clean-up removes one range, and does so exactly when the browser left scaffolding. */
  lemma {:induction false} CleanUpOmitsARange(before: Snapshot, after: Snapshot, split: Segmenter)
    requires Segments(split)
    ensures var a, b := Tokens(before.parts, split), Tokens(after.parts, split);
            if LeavesScaffolding(a, b) then CleanedUp(a, b, CleanUp(before, after, split))
            else CleanUp(before, after, split) == after
  {
    CleanUpByTokens(before, after, split);
    TokensAreClean(after.parts, split);
    if LeavesScaffolding(Tokens(before.parts, split), Tokens(after.parts, split)) {
      TokensCleanedUp(Tokens(before.parts, split), Tokens(after.parts, split));
    }
  }

  // Doing it again.

  function TextLength(parts: seq<Part>): nat {
    if parts == [] then 0
    else (if parts[0].Text? then |parts[0].text| else 0) + TextLength(parts[1..])
  }

  lemma {:induction false} TextLengthPlus(a: seq<Part>, b: seq<Part>)
    ensures TextLength(a + b) == TextLength(a) + TextLength(b)
  {
    if a == [] {
      assert a + b == b;
    } else {
      assert (a + b)[1..] == a[1..] + b;
      TextLengthPlus(a[1..], b);
    }
  }

  lemma {:induction false} TextLengthOne(part: Part)
    ensures TextLength([part]) == if part.Text? then |part.text| else 0
  {
    assert TextLength([part]) == (if part.Text? then |part.text| else 0) + TextLength([]);
  }

  lemma {:induction false} TextLengthOfAdd(parts: seq<Part>, token: Part)
    ensures TextLength(AddToken(parts, token)) == TextLength(parts) + TextLength([token])
  {
    TextLengthOne(token);
    var last := |parts| - 1;
    if token.Text? && parts != [] && parts[last].Text? {
      var joined := Text(parts[last].text + token.text);
      TextLengthPlus(parts[..last], [joined]);
      TextLengthPlus(parts[..last], [parts[last]]);
      assert parts == parts[..last] + [parts[last]];
      TextLengthOne(joined);
      TextLengthOne(parts[last]);
    } else {
      TextLengthPlus(parts, [token]);
    }
  }

  lemma {:induction false} TextLengthOfParts(tokens: seq<Part>)
    ensures TextLength(PartsFromTokens(tokens)) == TextLength(tokens)
  {
    if tokens != [] {
      var init, last := tokens[..|tokens| - 1], tokens[|tokens| - 1];
      TextLengthOfParts(init);
      TextLengthOfAdd(PartsFromTokens(init), last);
      TextLengthPlus(init, [last]);
      assert tokens == init + [last];
    }
  }

  lemma {:induction false} KeptIsShorter(a: seq<Part>, b: seq<Part>)
    requires LeavesScaffolding(a, b)
    ensures TextLength(KeptTokens(a, b)) < TextLength(b)
  {
    ScaffoldingRanges(a, b);
    var r := AffixesOf(a, b, SameToken);
    var left, middle, right := b[..r.prefix], b[r.prefix..|b| - r.suffix], b[|b| - r.suffix..];
    assert KeptTokens(a, b) == left + right;
    assert b == left + (middle + right);
    assert IsLineBreak(b[r.prefix]) && middle[0] == b[r.prefix];
    MiddleCounts(left, middle, right);
  }

  lemma {:induction false} MiddleCounts(left: seq<Part>, middle: seq<Part>, right: seq<Part>)
    requires middle != [] && IsLineBreak(middle[0])
    ensures TextLength(left + right) < TextLength(left + (middle + right))
  {
    TextLengthPlus(left, middle + right);
    TextLengthPlus(middle, right);
    TextLengthPlus(left, right);
  }

  /** The clean-up leaves content alone exactly when there is no scaffolding in it. */
  lemma {:induction false} CleanUpKeeps(before: Snapshot, after: Snapshot, split: Segmenter)
    requires Segments(split) && Normal(after.parts)
    ensures CleanUp(before, after, split) == after <==>
            !LeavesScaffolding(Tokens(before.parts, split), Tokens(after.parts, split))
  {
    var a, b := Tokens(before.parts, split), Tokens(after.parts, split);
    CleanUpByTokens(before, after, split);
    if LeavesScaffolding(a, b) {
      KeptIsShorter(a, b);
      TextLengthOfParts(KeptTokens(a, b));
      TextLengthOfParts(b);
      TokensRoundTrip(after.parts, split);
      NormalIsKept(after.parts);
    }
  }

  lemma {:induction false} OmittedMeansNoScaffolding(a: seq<Part>, b: seq<Part>, from: nat, to: nat)
    requires Omits(Keys(b), Keys(a), from, to)
    ensures !LeavesScaffolding(a, b)
  {
    var x, y := Keys(a), Keys(b);
    assert |b| == |y| == from + |a| - to;
    forall i | 0 <= i < from ensures SameToken(a[i], b[i]) {
      assert y[i] == x[i];
    }
    forall i: nat | i < |b| - from ensures SameToken(FromEnd(a, i), FromEnd(b, i)) {
      assert y[|b| - 1 - i] == x[|a| - 1 - i];
    }
    AffixesCover(a, b, SameToken, from);
  }

  lemma {:induction false} SecondCleanUp(before: Snapshot, after: Snapshot, split: Segmenter)
    requires Segments(split)
    requires LeavesScaffolding(Tokens(before.parts, split), Tokens(after.parts, split))
    ensures var once := CleanUp(before, after, split);
            CleanUp(before, once, split) == once <==>
            !LeavesScaffolding(Tokens(before.parts, split), Tokens(once.parts, split))
  {
    CleanUpOmitsARange(before, after, split);
    CleanUpKeeps(before, CleanUp(before, after, split), split);
  }

  /** Cleaning up again changes nothing as long as the text around the gap, once joined, is
      cut as before; this holds for every segmentation. */
  lemma {:induction false} CleanUpTwiceIsOnce(before: Snapshot, after: Snapshot, split: Segmenter, once: Snapshot)
    requires Segments(split)
    requires LeavesScaffolding(Tokens(before.parts, split), Tokens(after.parts, split))
    requires once == CleanUp(before, after, split)
    requires Tokens(once.parts, split) == KeptTokens(Tokens(before.parts, split), Tokens(after.parts, split))
    ensures CleanUp(before, once, split) == once
  {
    NothingLeft(Tokens(before.parts, split), Tokens(after.parts, split));
    SecondCleanUp(before, after, split);
  }

  lemma {:induction false} NothingLeft(a: seq<Part>, b: seq<Part>)
    ensures !LeavesScaffolding(a, KeptTokens(a, b))
  {
    var r := AffixesOf(a, b, SameToken);
    KeptOmits(a, b);
    OmittedMeansNoScaffolding(a, KeptTokens(a, b), r.prefix, |a| - r.suffix);
  }
}
