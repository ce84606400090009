/** Content of the composer: parts, their normal form, their tokens, and what the editor
    derives from comparing two versions. The segmentation of text into graphemes is a
    parameter, of which only this is known: it cuts a text into non-empty pieces. */
module Composer {
  import opened Prelude

  datatype Part = Text(text: string) | ImageRef(imageId: nat) | AttachmentRef(path: string, name: string)

  datatype Snapshot = Snapshot(parts: seq<Part>, caretOffset: int)

  const CARET := '\U{200b}'

  type Segmenter = string -> seq<string>

  ghost predicate Segments(split: Segmenter) {
    forall text :: Concat(split(text)) == text && forall piece <- split(text) :: piece != ""
  }

  // ----------------------------------------------------------- normal form

  function StripCaret(text: string): string {
    if text == "" then "" else (if text[0] == CARET then "" else [text[0]]) + StripCaret(text[1..])
  }

  /** Appends to the last text, or starts a new part. */
  function AddToken(parts: seq<Part>, token: Part): seq<Part> {
    if token.Text? && parts != [] && parts[|parts| - 1].Text?
    then parts[..|parts| - 1] + [Text(parts[|parts| - 1].text + token.text)]
    else parts + [token]
  }

  function AddTokens(parts: seq<Part>, tokens: seq<Part>): seq<Part> {
    if tokens == [] then parts else AddToken(AddTokens(parts, tokens[..|tokens| - 1]), tokens[|tokens| - 1])
  }

  function PartsFromTokens(tokens: seq<Part>): seq<Part> {
    AddTokens([], tokens)
  }

  function AddPart(parts: seq<Part>, part: Part): seq<Part> {
    if !part.Text? then parts + [part]
    else
      var text := StripCaret(part.text);
      if text == "" then parts else AddToken(parts, Text(text))
  }

  function NormalizeParts(parts: seq<Part>): seq<Part> {
    if parts == [] then [] else AddPart(NormalizeParts(parts[..|parts| - 1]), parts[|parts| - 1])
  }

  method NormalizeComposerContentParts(parts: seq<Part>) returns (normalized: seq<Part>)
    ensures normalized == NormalizeParts(parts)
  {
    normalized := [];
    for i := 0 to |parts|
      invariant normalized == NormalizeParts(parts[..i])
    {
      var part := parts[i];
      assert parts[..i + 1][..i] == parts[..i];
      if !part.Text? {
        normalized := normalized + [part];
        continue;
      }
      var text := StripCaret(part.text);
      if text == "" { continue; }
      if normalized != [] && normalized[|normalized| - 1].Text? {
        normalized := normalized[..|normalized| - 1] + [Text(normalized[|normalized| - 1].text + text)];
      } else {
        normalized := normalized + [Text(text)];
      }
    }
    assert parts[..|parts|] == parts;
  }

  /** No caret marker, no empty text, no two texts side by side. */
  ghost predicate Normal(parts: seq<Part>) {
    && (forall i | 0 <= i < |parts| && parts[i].Text? :: parts[i].text != "" && CARET !in parts[i].text)
    && (forall i | 0 < i < |parts| :: !(parts[i - 1].Text? && parts[i].Text?))
  }

  lemma {:induction false} StripRemoves(text: string)
    ensures CARET !in StripCaret(text) && |StripCaret(text)| <= |text|
    ensures CARET !in text <==> StripCaret(text) == text
    ensures CARET !in text <==> |StripCaret(text)| == |text|
  {
    if text != "" {
      StripRemoves(text[1..]);
      assert text == [text[0]] + text[1..];
    }
  }

  lemma {:induction false} AddPartIsNormal(parts: seq<Part>, part: Part)
    requires Normal(parts)
    ensures Normal(AddPart(parts, part))
  {
    if part.Text? { StripRemoves(part.text); }
  }

  lemma {:induction false} NormalizeIsNormal(parts: seq<Part>)
    ensures Normal(NormalizeParts(parts))
  {
    if parts != [] {
      NormalizeIsNormal(parts[..|parts| - 1]);
      AddPartIsNormal(NormalizeParts(parts[..|parts| - 1]), parts[|parts| - 1]);
    }
  }

  lemma {:induction false} NormalInit(parts: seq<Part>)
    requires Normal(parts) && parts != []
    ensures Normal(parts[..|parts| - 1])
    ensures AddToken(parts[..|parts| - 1], parts[|parts| - 1]) == parts
  {
    var init, last := parts[..|parts| - 1], parts[|parts| - 1];
    assert init != [] ==> init[|init| - 1] == parts[|parts| - 2];
    assert init + [last] == parts;
  }

  lemma {:induction false} NormalIsKept(parts: seq<Part>)
    requires Normal(parts)
    ensures NormalizeParts(parts) == parts
  {
    if parts != [] {
      NormalInit(parts);
      NormalIsKept(parts[..|parts| - 1]);
      if parts[|parts| - 1].Text? { StripRemoves(parts[|parts| - 1].text); }
    }
  }

  /** Normalising is idempotent. */
  lemma {:induction false} NormalizeTwice(parts: seq<Part>)
    ensures NormalizeParts(NormalizeParts(parts)) == NormalizeParts(parts)
  {
    NormalizeIsNormal(parts);
    NormalIsKept(NormalizeParts(parts));
  }

  // ---------------------------------------------------------------- tokens

  function TextTokens(pieces: seq<string>): (tokens: seq<Part>)
    ensures |tokens| == |pieces|
  {
    seq(|pieces|, i requires 0 <= i < |pieces| => Text(pieces[i]))
  }

  function TokensOfPart(part: Part, split: Segmenter): seq<Part> {
    if part.Text? then TextTokens(split(part.text)) else [part]
  }

  function TokensOfParts(parts: seq<Part>, split: Segmenter): seq<Part> {
    if parts == [] then []
    else TokensOfParts(parts[..|parts| - 1], split) + TokensOfPart(parts[|parts| - 1], split)
  }

  function Tokens(parts: seq<Part>, split: Segmenter): seq<Part> {
    TokensOfParts(NormalizeParts(parts), split)
  }

  method ComposerContentTokens(parts: seq<Part>, split: Segmenter) returns (tokens: seq<Part>)
    ensures tokens == Tokens(parts, split)
  {
    var normalized := NormalizeComposerContentParts(parts);
    tokens := [];
    for i := 0 to |normalized|
      invariant tokens == TokensOfParts(normalized[..i], split)
    {
      assert normalized[..i + 1][..i] == normalized[..i];
      if normalized[i].Text? {
        tokens := tokens + TextTokens(split(normalized[i].text));
      } else {
        tokens := tokens + [normalized[i]];
      }
    }
    assert normalized[..|normalized|] == normalized;
  }

  lemma {:induction false} AddTokensStep(tokens: seq<Part>, i: nat)
    requires i < |tokens|
    ensures AddTokens([], tokens[..i + 1]) == AddToken(AddTokens([], tokens[..i]), tokens[i])
  {
    assert tokens[..i + 1][..i] == tokens[..i];
  }

  method ComposerPartsFromTokens(tokens: seq<Part>) returns (parts: seq<Part>)
    ensures parts == PartsFromTokens(tokens)
  {
    parts := [];
    for i := 0 to |tokens|
      invariant parts == AddTokens([], tokens[..i])
    {
      var token := tokens[i];
      AddTokensStep(tokens, i);
      if token.Text? && parts != [] && parts[|parts| - 1].Text? {
        parts := parts[..|parts| - 1] + [Text(parts[|parts| - 1].text + token.text)];
      } else {
        parts := parts + [token];
      }
    }
    assert tokens[..|tokens|] == tokens;
  }

  lemma {:induction false} AddTokensPlus(parts: seq<Part>, a: seq<Part>, b: seq<Part>)
    ensures AddTokens(parts, a + b) == AddTokens(AddTokens(parts, a), b)
    decreases |b|
  {
    if b == [] {
      assert a + b == a;
    } else {
      assert (a + b)[..|a + b| - 1] == a + b[..|b| - 1];
      AddTokensPlus(parts, a, b[..|b| - 1]);
    }
  }

  lemma {:induction false} AddText(parts: seq<Part>, a: string, b: string)
    ensures AddToken(AddToken(parts, Text(a)), Text(b)) == AddToken(parts, Text(a + b))
  {
    var last := |parts| - 1;
    if parts != [] && parts[last].Text? {
      var once := parts[..last] + [Text(parts[last].text + a)];
      assert once[..last] == parts[..last];
      assert parts[last].text + a + b == parts[last].text + (a + b);
    } else {
      assert (parts + [Text(a)])[..|parts|] == parts;
    }
  }

  lemma {:induction false} ConcatLast(pieces: seq<string>)
    requires pieces != []
    ensures Concat(pieces) == Concat(pieces[..|pieces| - 1]) + pieces[|pieces| - 1]
  {
    assert pieces == pieces[..|pieces| - 1] + [pieces[|pieces| - 1]];
    ConcatAppend(pieces[..|pieces| - 1], [pieces[|pieces| - 1]]);
    ConcatOne(pieces[|pieces| - 1]);
  }

  /** Adding the pieces of a text one by one is adding the text. */
  lemma {:induction false} AddPieces(parts: seq<Part>, pieces: seq<string>)
    requires pieces != []
    ensures AddTokens(parts, TextTokens(pieces)) == AddToken(parts, Text(Concat(pieces)))
  {
    var init, last := pieces[..|pieces| - 1], pieces[|pieces| - 1];
    assert TextTokens(pieces)[..|pieces| - 1] == TextTokens(init);
    ConcatLast(pieces);
    if init == [] {
      assert TextTokens(init) == [] && Concat(init) == "";
      assert "" + last == last;
    } else {
      AddPieces(parts, init);
      AddText(parts, Concat(init), last);
    }
  }

  lemma {:induction false} TokensBackToParts(parts: seq<Part>, split: Segmenter)
    requires Segments(split) && Normal(parts)
    ensures PartsFromTokens(TokensOfParts(parts, split)) == parts
  {
    if parts != [] {
      var init, last := parts[..|parts| - 1], parts[|parts| - 1];
      NormalInit(parts);
      TokensBackToParts(init, split);
      AddTokensPlus([], TokensOfParts(init, split), TokensOfPart(last, split));
      if last.Text? {
        assert Concat(split(last.text)) == last.text;
        AddPieces(init, split(last.text));
      } else {
        assert [last][..0] == [];
      }
    }
  }

  /** Cutting content into tokens and putting the tokens together is normalising it. */
  lemma {:induction false} TokensRoundTrip(parts: seq<Part>, split: Segmenter)
    requires Segments(split)
    ensures PartsFromTokens(Tokens(parts, split)) == NormalizeParts(parts)
  {
    NormalizeIsNormal(parts);
    TokensBackToParts(NormalizeParts(parts), split);
  }

  // -------------------------------------------------------------- affixes

  /** Attachments are identified by their path; the name is only what is shown. */
  predicate SameToken(a: Part, b: Part) {
    match (a, b)
    case (Text(x), Text(y)) => x == y
    case (ImageRef(x), ImageRef(y)) => x == y
    case (AttachmentRef(x, _), AttachmentRef(y, _)) => x == y
    case _ => false
  }

  predicate SameChar(a: char, b: char) {
    a == b
  }

  function FromEnd<T>(s: seq<T>, i: nat): T
    requires i < |s|
  {
    s[|s| - 1 - i]
  }

  function SuffixLength<T>(a: seq<T>, b: seq<T>, same: (T, T) -> bool): (n: nat)
    ensures n <= |a| && n <= |b|
  {
    if a == [] || b == [] || !same(a[|a| - 1], b[|b| - 1]) then 0
    else 1 + SuffixLength(a[..|a| - 1], b[..|b| - 1], same)
  }

  /** The first `n` elements, counted from the end, agree. */
  ghost predicate EndsAgree<T>(a: seq<T>, b: seq<T>, same: (T, T) -> bool, n: nat) {
    n <= |a| && n <= |b| && forall i: nat | i < n :: same(FromEnd(a, i), FromEnd(b, i))
  }

  lemma {:induction false} SuffixAgrees<T>(a: seq<T>, b: seq<T>, same: (T, T) -> bool)
    ensures EndsAgree(a, b, same, SuffixLength(a, b, same))
  {
    var n := SuffixLength(a, b, same);
    if n > 0 {
      var x, y := a[..|a| - 1], b[..|b| - 1];
      SuffixAgrees(x, y, same);
      forall i: nat | i < n ensures same(FromEnd(a, i), FromEnd(b, i)) {
        if i > 0 { assert FromEnd(a, i) == FromEnd(x, i - 1) && FromEnd(b, i) == FromEnd(y, i - 1); }
      }
    }
  }

  lemma {:induction false} SuffixIsLongest<T>(a: seq<T>, b: seq<T>, same: (T, T) -> bool, n: nat)
    requires EndsAgree(a, b, same, n)
    ensures n <= SuffixLength(a, b, same)
    ensures n == |a| || n == |b| || !same(FromEnd(a, n), FromEnd(b, n)) ==> n == SuffixLength(a, b, same)
    decreases |a|
  {
    if a != [] && b != [] && same(a[|a| - 1], b[|b| - 1]) && n > 0 {
      var x, y := a[..|a| - 1], b[..|b| - 1];
      forall i: nat | i < n - 1 ensures same(FromEnd(x, i), FromEnd(y, i)) {
        assert FromEnd(x, i) == FromEnd(a, i + 1) && FromEnd(y, i) == FromEnd(b, i + 1);
      }
      SuffixIsLongest(x, y, same, n - 1);
    }
    if n > 0 { assert same(FromEnd(a, 0), FromEnd(b, 0)); }
  }

  /** The common beginning, and the common end that stays clear of it. */
  datatype Affixes = Affixes(prefix: nat, suffix: nat)

  function AffixesOf<T>(a: seq<T>, b: seq<T>, same: (T, T) -> bool): (r: Affixes)
    ensures r.prefix + r.suffix <= |a| && r.prefix + r.suffix <= |b|
  {
    var p := PrefixLength(a, b, same);
    Affixes(p, SuffixLength(a[p..], b[p..], same))
  }

  lemma {:induction false} EndsOfTails<T>(a: seq<T>, b: seq<T>, same: (T, T) -> bool, p: nat, n: nat)
    requires p + n <= |a| && p + n <= |b|
    ensures EndsAgree(a, b, same, n) <==> EndsAgree(a[p..], b[p..], same, n)
  {
    assert forall i: nat | i < n :: FromEnd(a[p..], i) == FromEnd(a, i) && FromEnd(b[p..], i) == FromEnd(b, i);
  }

  method CommonPrefix<T>(a: seq<T>, b: seq<T>, same: (T, T) -> bool) returns (prefixLength: nat)
    ensures prefixLength == PrefixLength(a, b, same)
  {
    prefixLength := 0;
    while prefixLength < |a| && prefixLength < |b| && same(a[prefixLength], b[prefixLength])
      invariant prefixLength <= |a| && prefixLength <= |b|
      invariant forall i | 0 <= i < prefixLength :: same(a[i], b[i])
    {
      prefixLength := prefixLength + 1;
    }
    PrefixIsUnique(a, b, same, prefixLength);
  }

  method CommonSuffix<T>(a: seq<T>, b: seq<T>, same: (T, T) -> bool, prefixLength: nat) returns (suffixLength: nat)
    requires prefixLength <= |a| && prefixLength <= |b|
    ensures suffixLength == SuffixLength(a[prefixLength..], b[prefixLength..], same)
  {
    ghost var x, y := a[prefixLength..], b[prefixLength..];
    suffixLength := 0;
    while suffixLength < |a| - prefixLength && suffixLength < |b| - prefixLength
          && same(a[|a| - 1 - suffixLength], b[|b| - 1 - suffixLength])
      invariant suffixLength <= |a| - prefixLength && suffixLength <= |b| - prefixLength
      invariant EndsAgree(x, y, same, suffixLength)
    {
      assert FromEnd(x, suffixLength) == a[|a| - 1 - suffixLength];
      assert FromEnd(y, suffixLength) == b[|b| - 1 - suffixLength];
      suffixLength := suffixLength + 1;
    }
    SuffixIsLongest(x, y, same, suffixLength);
  }

  method CommonAffixes<T>(a: seq<T>, b: seq<T>, same: (T, T) -> bool) returns (r: Affixes)
    ensures r == AffixesOf(a, b, same)
  {
    var prefixLength := CommonPrefix(a, b, same);
    var suffixLength := CommonSuffix(a, b, same, prefixLength);
    r := Affixes(prefixLength, suffixLength);
  }

  /** What the two affixes say about the sequences. */
  lemma {:induction false} AffixesAgree<T>(a: seq<T>, b: seq<T>, same: (T, T) -> bool)
    ensures var r := AffixesOf(a, b, same);
            && (forall i | 0 <= i < r.prefix :: same(a[i], b[i]))
            && EndsAgree(a, b, same, r.suffix)
  {
    var p := PrefixLength(a, b, same);
    SuffixAgrees(a[p..], b[p..], same);
    EndsOfTails(a, b, same, p, SuffixLength(a[p..], b[p..], same));
  }

  /** If the shorter of two sequences is a beginning and an end of the longer one, put side
      by side, the two affixes found cover all of it. */
  lemma {:induction false} AffixesCover<T>(a: seq<T>, b: seq<T>, same: (T, T) -> bool, k: nat)
    requires k <= |a| && k <= |b| && forall i | 0 <= i < k :: same(a[i], b[i])
    requires EndsAgree(a, b, same, Min(|a|, |b|) - k)
    ensures var r := AffixesOf(a, b, same); r.prefix + r.suffix == Min(|a|, |b|)
  {
    var p := PrefixLength(a, b, same);
    PrefixIsLongest(a, b, same, k);
    var n := Min(|a|, |b|) - p;
    assert EndsAgree(a, b, same, n);
    EndsOfTails(a, b, same, p, n);
    SuffixIsLongest(a[p..], b[p..], same, n);
  }
}
