/** Tokens that are put together and cut afresh. Joining two token sequences joins the texts
    at the seam, and a segmentation may cut the joined text in another way. */
module ComposerCuts {
  import opened Prelude
  import opened Composer
  import opened ComposerHistory

  /** The tokens of the content that the given tokens make up. */
  function Cut(tokens: seq<Part>, split: Segmenter): seq<Part> {
    TokensOfParts(PartsFromTokens(tokens), split)
  }

  ghost predicate Stable(tokens: seq<Part>, split: Segmenter) {
    Cut(tokens, split) == tokens
  }

  /** No text is empty. */
  ghost predicate Solid(tokens: seq<Part>) {
    forall i | 0 <= i < |tokens| && tokens[i].Text? :: tokens[i].text != ""
  }

  lemma {:induction false} TokensAreStable(parts: seq<Part>, split: Segmenter)
    requires Segments(split)
    ensures Stable(Tokens(parts, split), split) && Solid(Tokens(parts, split))
  {
    TokensRoundTrip(parts, split);
    TokensAreClean(parts, split);
  }

  lemma {:induction false} TokensOfCleanTokens(tokens: seq<Part>, split: Segmenter)
    requires Clean(tokens)
    ensures Tokens(PartsFromTokens(tokens), split) == Cut(tokens, split)
  {
    PartsOfCleanTokens(tokens);
    NormalIsKept(PartsFromTokens(tokens));
  }

  // ---------------------------------------------------- single characters

  function FlatOne(token: Part): (flat: seq<Part>)
    ensures |flat| == if token.Text? then |token.text| else 1
  {
    if token.Text? then seq(|token.text|, i requires 0 <= i < |token.text| => Text([token.text[i]])) else [token]
  }

  /** The same content, character by character. */
  function Flat(tokens: seq<Part>): seq<Part> {
    if tokens == [] then [] else Flat(tokens[..|tokens| - 1]) + FlatOne(tokens[|tokens| - 1])
  }

  lemma {:induction false} FlatPlus(a: seq<Part>, b: seq<Part>)
    ensures Flat(a + b) == Flat(a) + Flat(b)
    decreases |b|
  {
    if b == [] {
      assert a + b == a;
    } else {
      assert (a + b)[..|a + b| - 1] == a + b[..|b| - 1];
      FlatPlus(a, b[..|b| - 1]);
      Regroup3(Flat(a), Flat(b[..|b| - 1]), FlatOne(b[|b| - 1]));
    }
  }

  lemma {:induction false} FlatSingle(token: Part)
    ensures Flat([token]) == FlatOne(token)
  {
    assert [token][..0] == [] && Flat([]) == [];
  }

  lemma {:induction false} FlatIsLonger(tokens: seq<Part>)
    requires Solid(tokens) && tokens != []
    ensures Flat(tokens) != []
  {
    var last := tokens[|tokens| - 1];
    assert FlatOne(last) != [];
  }

  lemma {:induction false} FlatText(a: string, b: string)
    ensures FlatOne(Text(a + b)) == FlatOne(Text(a)) + FlatOne(Text(b))
  {
  }

  lemma {:induction false} FlatPieces(pieces: seq<string>)
    ensures Flat(TextTokens(pieces)) == FlatOne(Text(Concat(pieces)))
  {
    if pieces == [] {
      assert TextTokens(pieces) == [];
    } else {
      var init, last := pieces[..|pieces| - 1], pieces[|pieces| - 1];
      FlatPieces(init);
      ConcatLast(pieces);
      FlatText(Concat(init), last);
      assert TextTokens(pieces)[..|pieces| - 1] == TextTokens(init);
    }
  }

  lemma {:induction false} FlatOfAdd(parts: seq<Part>, token: Part)
    ensures Flat(AddToken(parts, token)) == Flat(parts) + FlatOne(token)
  {
    var last := |parts| - 1;
    if token.Text? && parts != [] && parts[last].Text? {
      var joined := Text(parts[last].text + token.text);
      assert (parts[..last] + [joined])[..last] == parts[..last];
      FlatText(parts[last].text, token.text);
      Regroup3(Flat(parts[..last]), FlatOne(parts[last]), FlatOne(token));
    } else {
      assert (parts + [token])[..|parts|] == parts;
    }
  }

  lemma {:induction false} FlatOfParts(tokens: seq<Part>)
    ensures Flat(PartsFromTokens(tokens)) == Flat(tokens)
  {
    if tokens != [] {
      FlatOfParts(tokens[..|tokens| - 1]);
      FlatOfAdd(PartsFromTokens(tokens[..|tokens| - 1]), tokens[|tokens| - 1]);
    }
  }

  lemma {:induction false} FlatOfTokens(parts: seq<Part>, split: Segmenter)
    requires Segments(split)
    ensures Flat(TokensOfParts(parts, split)) == Flat(parts)
  {
    if parts != [] {
      var init, last := parts[..|parts| - 1], parts[|parts| - 1];
      FlatOfTokens(init, split);
      FlatPlus(TokensOfParts(init, split), TokensOfPart(last, split));
      if last.Text? {
        FlatPieces(split(last.text));
        assert Concat(split(last.text)) == last.text;
      } else {
        FlatSingle(last);
      }
    }
  }

  /** Cutting afresh changes no character and no reference. */
  lemma {:induction false} FlatOfCut(tokens: seq<Part>, split: Segmenter)
    requires Segments(split)
    ensures Flat(Cut(tokens, split)) == Flat(tokens)
  {
    FlatOfTokens(PartsFromTokens(tokens), split);
    FlatOfParts(tokens);
  }

  lemma {:induction false} PieceOf(s: string)
    ensures FlatOne(Text(s)) == TextTokens(seq(|s|, i requires 0 <= i < |s| => [s[i]]))
    ensures Concat(seq(|s|, i requires 0 <= i < |s| => [s[i]])) == s
  {
    var pieces := seq(|s|, i requires 0 <= i < |s| => [s[i]]);
    ConcatChars(s, pieces);
  }

  lemma {:induction false} ConcatChars(s: string, pieces: seq<string>)
    requires |pieces| == |s| && forall i | 0 <= i < |s| :: pieces[i] == [s[i]]
    ensures Concat(pieces) == s
  {
    if s != "" {
      ConcatChars(s[1..], pieces[1..]);
      assert s == [s[0]] + s[1..];
    }
  }

  lemma {:induction false} AddFlat(parts: seq<Part>, token: Part)
    requires token.Text? ==> token.text != ""
    ensures AddTokens(parts, FlatOne(token)) == AddToken(parts, token)
  {
    if token.Text? {
      PieceOf(token.text);
      AddPieces(parts, seq(|token.text|, i requires 0 <= i < |token.text| => [token.text[i]]));
    } else {
      assert [token][..0] == [] && AddTokens(parts, []) == parts;
    }
  }

  lemma {:induction false} PartsOfFlat(tokens: seq<Part>)
    requires Solid(tokens)
    ensures PartsFromTokens(Flat(tokens)) == PartsFromTokens(tokens)
  {
    if tokens != [] {
      var init, last := tokens[..|tokens| - 1], tokens[|tokens| - 1];
      PartsOfFlat(init);
      AddTokensPlus([], Flat(init), FlatOne(last));
      AddFlat(PartsFromTokens(init), last);
    }
  }

  /** How content is cut depends on its characters and references only. */
  lemma {:induction false} CutOfFlat(tokens: seq<Part>, split: Segmenter)
    requires Solid(tokens)
    ensures Cut(Flat(tokens), split) == Cut(tokens, split)
  {
    PartsOfFlat(tokens);
  }

  // --------------------------------------------------------------- seams

  function JoinParts(p: seq<Part>, q: seq<Part>): seq<Part> {
    if p != [] && q != [] && p[|p| - 1].Text? && q[0].Text?
    then p[..|p| - 1] + [Text(p[|p| - 1].text + q[0].text)] + q[1..]
    else p + q
  }

  lemma {:induction false} JoinAdd(p: seq<Part>, q: seq<Part>, token: Part)
    ensures AddToken(JoinParts(p, q), token) == JoinParts(p, AddToken(q, token))
  {
    if q == [] {
      assert JoinParts(p, q) == p && AddToken(q, token) == [token];
      assert [token][1..] == [];
    } else if |q| == 1 {
      JoinAddOne(p, q[0], token);
      assert q == [q[0]];
    } else {
      JoinAddMore(p, q, token);
    }
  }

  lemma {:induction false} JoinOne(p: seq<Part>, part: Part)
    ensures JoinParts(p, [part]) == AddToken(p, part)
  {
    assert [part][1..] == [];
  }

  lemma {:induction false} JoinAddOne(p: seq<Part>, part: Part, token: Part)
    ensures AddToken(JoinParts(p, [part]), token) == JoinParts(p, AddToken([part], token))
  {
    JoinOne(p, part);
    assert [part][..0] == [];
    if token.Text? && part.Text? {
      AddText(p, part.text, token.text);
      JoinOne(p, Text(part.text + token.text));
      assert AddToken([part], token) == [Text(part.text + token.text)];
    } else {
      assert AddToken([part], token) == [part, token];
      JoinTwo(p, part, token);
    }
  }

  lemma {:induction false} JoinTwo(p: seq<Part>, part: Part, token: Part)
    ensures JoinParts(p, [part, token]) == AddToken(p, part) + [token]
  {
    assert [part, token][1..] == [token];
    assert p + [part, token] == p + [part] + [token];
  }

  lemma {:induction false} AddBehind(u: seq<Part>, rest: seq<Part>, token: Part)
    requires rest != []
    ensures AddToken(u + rest, token) == u + AddToken(rest, token)
  {
    var last := rest[|rest| - 1];
    if token.Text? && last.Text? {
      var front, joined := rest[..|rest| - 1], [Text(last.text + token.text)];
      assert (u + rest)[..|u + rest| - 1] == u + front;
      Regroup3(u, front, joined);
    } else {
      Regroup3(u, rest, [token]);
    }
  }

  lemma {:induction false} JoinHead(p: seq<Part>, first: Part, rest: seq<Part>)
    ensures JoinParts(p, [first] + rest) == JoinParts(p, [first]) + rest
  {
    assert ([first] + rest)[1..] == rest && [first][1..] == [];
    if p == [] || !p[|p| - 1].Text? || !first.Text? { Regroup3(p, [first], rest); }
  }

  lemma {:induction false} JoinAddMore(p: seq<Part>, q: seq<Part>, token: Part)
    requires |q| > 1
    ensures AddToken(JoinParts(p, q), token) == JoinParts(p, AddToken(q, token))
  {
    var first, rest := q[0], q[1..];
    assert q == [first] + rest;
    JoinHead(p, first, rest);
    JoinHead(p, first, AddToken(rest, token));
    AddBehind([first], rest, token);
    AddBehind(JoinParts(p, [first]), rest, token);
  }

  lemma {:induction false} PartsPlus(f: seq<Part>, g: seq<Part>)
    ensures PartsFromTokens(f + g) == JoinParts(PartsFromTokens(f), PartsFromTokens(g))
    decreases |g|
  {
    if g == [] {
      assert f + g == f;
    } else {
      var init, last := g[..|g| - 1], g[|g| - 1];
      assert (f + g)[..|f + g| - 1] == f + init;
      PartsPlus(f, init);
      JoinAdd(PartsFromTokens(f), PartsFromTokens(init), last);
    }
  }

  lemma {:induction false} TokensPlus(p: seq<Part>, q: seq<Part>, split: Segmenter)
    ensures TokensOfParts(p + q, split) == TokensOfParts(p, split) + TokensOfParts(q, split)
    decreases |q|
  {
    if q == [] {
      assert p + q == p;
    } else {
      var init, last := q[..|q| - 1], q[|q| - 1];
      assert (p + q)[..|p + q| - 1] == p + init;
      TokensPlus(p, init, split);
      Regroup3(TokensOfParts(p, split), TokensOfParts(init, split), TokensOfPart(last, split));
    }
  }

  lemma {:induction false} TokensOfSingle(part: Part, split: Segmenter)
    ensures TokensOfParts([part], split) == TokensOfPart(part, split)
  {
    assert [part][..0] == [] && TokensOfParts([], split) == [];
  }

  ghost predicate TextLast(f: seq<Part>) {
    f != [] && f[|f| - 1].Text? && f[|f| - 1].text != ""
  }

  ghost predicate TextFirst(g: seq<Part>) {
    g != [] && g[0].Text? && g[0].text != ""
  }

  function LastChar(text: string): char
    requires text != ""
  {
    text[|text| - 1]
  }

  lemma {:induction false} LastOfParts(f: seq<Part>)
    requires Solid(f)
    ensures f == [] <==> PartsFromTokens(f) == []
    ensures TextLast(f) <==> TextLast(PartsFromTokens(f))
    ensures f != [] && !TextLast(f) ==> !PartsFromTokens(f)[|PartsFromTokens(f)| - 1].Text?
    ensures TextLast(f) ==>
              LastChar(PartsFromTokens(f)[|PartsFromTokens(f)| - 1].text) == LastChar(f[|f| - 1].text)
  {
  }

  /** Two sequences begin alike: both with a reference, or with texts of the same first
      character. */
  ghost predicate BeginAlike(p: seq<Part>, g: seq<Part>) {
    && (p == [] <==> g == []) && (TextFirst(p) <==> TextFirst(g))
    && (p != [] && !TextFirst(p) ==> !p[0].Text?)
    && (TextFirst(p) && TextFirst(g) ==> p[0].text[0] == g[0].text[0])
  }

  lemma {:induction false} AddKeepsFirst(p: seq<Part>, g: seq<Part>, token: Part)
    requires p != [] && BeginAlike(p, g)
    ensures BeginAlike(AddToken(p, token), g + [token])
  {
    var q := AddToken(p, token);
    if |p| == 1 && token.Text? && p[0].Text? {
      assert q[0] == Text(p[0].text + token.text);
    } else {
      assert q[0] == p[0];
    }
    assert (g + [token])[0] == g[0];
  }

  lemma {:induction false} FirstOfParts(g: seq<Part>)
    requires Solid(g)
    ensures BeginAlike(PartsFromTokens(g), g)
  {
    if |g| > 1 {
      var init := g[..|g| - 1];
      FirstOfParts(init);
      AddKeepsFirst(PartsFromTokens(init), init, g[|g| - 1]);
      assert g == init + [g[|g| - 1]];
    } else if |g| == 1 {
      assert g[..0] == [] && AddTokens([], []) == [];
      assert PartsFromTokens(g) == [g[0]];
    }
  }

  /** The texts that come together at the seam. */
  ghost function TailText(f: seq<Part>): string
    requires Solid(f) && TextLast(f)
  {
    LastOfParts(f);
    PartsFromTokens(f)[|PartsFromTokens(f)| - 1].text
  }

  ghost function HeadText(g: seq<Part>): string
    requires Solid(g) && TextFirst(g)
  {
    FirstOfParts(g);
    PartsFromTokens(g)[0].text
  }

  /** The tokens in front of the text at the seam. */
  ghost function Front(f: seq<Part>, split: Segmenter): seq<Part>
    requires Solid(f) && TextLast(f)
  {
    LastOfParts(f);
    TokensOfParts(PartsFromTokens(f)[..|PartsFromTokens(f)| - 1], split)
  }

  ghost function Back(g: seq<Part>, split: Segmenter): seq<Part>
    requires Solid(g) && TextFirst(g)
  {
    FirstOfParts(g);
    TokensOfParts(PartsFromTokens(g)[1..], split)
  }

  lemma {:induction false} CutAtTail(f: seq<Part>, split: Segmenter)
    requires Solid(f) && TextLast(f)
    ensures Cut(f, split) == Front(f, split) + TextTokens(split(TailText(f)))
  {
    LastOfParts(f);
  }

  lemma {:induction false} CutAtHead(g: seq<Part>, split: Segmenter)
    requires Solid(g) && TextFirst(g)
    ensures Cut(g, split) == TextTokens(split(HeadText(g))) + Back(g, split)
  {
    FirstOfParts(g);
    var q := PartsFromTokens(g);
    assert q == [q[0]] + q[1..];
    TokensPlus([q[0]], q[1..], split);
    TokensOfSingle(q[0], split);
  }

  /** Without texts on both sides of the seam nothing is joined. */
  lemma {:induction false} CutApart(f: seq<Part>, g: seq<Part>, split: Segmenter)
    requires Solid(f) && Solid(g) && !(TextLast(f) && TextFirst(g))
    ensures Cut(f + g, split) == Cut(f, split) + Cut(g, split)
  {
    PartsPlus(f, g);
    LastOfParts(f);
    FirstOfParts(g);
    TokensPlus(PartsFromTokens(f), PartsFromTokens(g), split);
  }

  /** Otherwise the two texts are cut as one. */
  lemma {:induction false} CutJoined(f: seq<Part>, g: seq<Part>, split: Segmenter)
    requires Solid(f) && Solid(g) && TextLast(f) && TextFirst(g)
    ensures Cut(f + g, split)
            == Front(f, split) + TextTokens(split(TailText(f) + HeadText(g))) + Back(g, split)
  {
    LastOfParts(f);
    FirstOfParts(g);
    PartsPlus(f, g);
    var p, q := PartsFromTokens(f), PartsFromTokens(g);
    var joined := Text(TailText(f) + HeadText(g));
    TokensPlus(p[..|p| - 1] + [joined], q[1..], split);
    TokensPlus(p[..|p| - 1], [joined], split);
    TokensOfSingle(joined, split);
  }

  lemma {:induction false} TextTokensPlus(a: seq<string>, b: seq<string>)
    ensures TextTokens(a + b) == TextTokens(a) + TextTokens(b)
  {
  }

  /** If the segmentation cuts at the seam anyway, so does the content. */
  lemma {:induction false} CutBetween(f: seq<Part>, g: seq<Part>, split: Segmenter)
    requires Solid(f) && Solid(g)
    requires TextLast(f) && TextFirst(g) ==>
               split(TailText(f) + HeadText(g)) == split(TailText(f)) + split(HeadText(g))
    ensures Cut(f + g, split) == Cut(f, split) + Cut(g, split)
  {
    if TextLast(f) && TextFirst(g) {
      CutJoined(f, g, split);
      CutAtTail(f, split);
      CutAtHead(g, split);
      TextTokensPlus(split(TailText(f)), split(HeadText(g)));
      Regroup4(Front(f, split), TextTokens(split(TailText(f))), TextTokens(split(HeadText(g))), Back(g, split));
    } else {
      CutApart(f, g, split);
    }
  }

  lemma {:induction false} Regroup4<T>(a: seq<T>, b: seq<T>, c: seq<T>, d: seq<T>)
    ensures a + (b + c) + d == (a + b) + (c + d)
  {
  }

  // -------------------------------------------------------- counting off

  /** Two beginnings of one token sequence that hold the same content are the same. */
  lemma {:induction false} SameBeginning(u: seq<Part>, v: seq<Part>, x: seq<Part>, y: seq<Part>)
    requires u + v == x + y && Solid(u + v) && |Flat(u)| == |Flat(x)|
    ensures u == x && v == y
  {
    if |u| < |x| {
      LongerHoldsMore(u, x, x + y);
    } else if |x| < |u| {
      LongerHoldsMore(x, u, u + v);
    }
    assert u == (u + v)[..|u|] && x == (x + y)[..|x|];
    assert v == (u + v)[|u|..] && y == (x + y)[|x|..];
  }

  lemma {:induction false} LongerHoldsMore(u: seq<Part>, x: seq<Part>, whole: seq<Part>)
    requires u <= whole && x <= whole && Solid(whole) && |u| < |x|
    ensures |Flat(u)| < |Flat(x)|
  {
    var more := x[|u|..];
    assert x == u + more;
    assert forall i | 0 <= i < |more| :: more[i] == whole[|u| + i];
    FlatPlus(u, more);
    FlatIsLonger(more);
  }
}
