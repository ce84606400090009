/** The seams between tokens, and how line ends decide them. The graphemes of Unicode are
    cut before and behind a carriage return or a line feed, whatever stands there, except
    between the two of a `\r\n`; that is all that is asked of a segmentation here. */
module ComposerSeams {
  import opened Prelude
  import opened Composer
  import opened ComposerHistory
  import opened ComposerCuts

  const CR := Text("\r")
  const LF := Text("\n")
  const CRLF := Text("\r\n")

  predicate IsBreak(c: char) {
    c == '\r' || c == '\n'
  }

  /** A line end stands at one side of the seam. */
  predicate AtLineEnd(x: string, y: string) {
    x != "" && y != "" && (IsBreak(x[|x| - 1]) || IsBreak(y[0]))
  }

  predicate CrLf(x: string, y: string) {
    x != "" && y != "" && x[|x| - 1] == '\r' && y[0] == '\n'
  }

  /** The last piece of the one and the first of the other become one. */
  function Fused(s: seq<string>, t: seq<string>): seq<string> {
    if s == [] || t == [] then s + t else s[..|s| - 1] + [s[|s| - 1] + t[0]] + t[1..]
  }

  /** Rules GB3, GB4 and GB5 of Unicode Standard Annex #29. */
  ghost predicate CutsAtLineEnds(split: Segmenter) {
    && Segments(split)
    && forall x, y | AtLineEnd(x, y) ::
         split(x + y) == if CrLf(x, y) then Fused(split(x), split(y)) else split(x) + split(y)
  }

  // ------------------------------------------------- seams at line ends

  ghost predicate EndsIn(f: seq<Part>, c: char) {
    TextLast(f) && LastChar(f[|f| - 1].text) == c
  }

  ghost predicate BeginsWith(g: seq<Part>, c: char) {
    TextFirst(g) && g[0].text[0] == c
  }

  ghost predicate EndsInBreak(f: seq<Part>) {
    EndsIn(f, '\r') || EndsIn(f, '\n')
  }

  ghost predicate BeginsWithBreak(g: seq<Part>) {
    BeginsWith(g, '\r') || BeginsWith(g, '\n')
  }

  /** The two sides do not share a text, or share a line end. */
  ghost predicate Loose(f: seq<Part>, g: seq<Part>) {
    !(TextLast(f) && TextFirst(g)) || EndsInBreak(f) || BeginsWithBreak(g)
  }

  ghost predicate SplitsCrLf(f: seq<Part>, g: seq<Part>) {
    EndsIn(f, '\r') && BeginsWith(g, '\n')
  }

  lemma {:induction false} SeamTexts(f: seq<Part>, g: seq<Part>)
    requires Solid(f) && Solid(g) && TextLast(f) && TextFirst(g)
    ensures AtLineEnd(TailText(f), HeadText(g)) <==> EndsInBreak(f) || BeginsWithBreak(g)
    ensures CrLf(TailText(f), HeadText(g)) <==> SplitsCrLf(f, g)
  {
    LastOfParts(f);
    FirstOfParts(g);
  }

  lemma {:induction false} CutAtLoose(f: seq<Part>, g: seq<Part>, split: Segmenter)
    requires CutsAtLineEnds(split) && Solid(f) && Solid(g) && Loose(f, g) && !SplitsCrLf(f, g)
    ensures Cut(f + g, split) == Cut(f, split) + Cut(g, split)
  {
    if TextLast(f) && TextFirst(g) {
      SeamTexts(f, g);
      assert AtLineEnd(TailText(f), HeadText(g));
    }
    CutBetween(f, g, split);
  }

  function FusedTokens(s: seq<Part>, t: seq<Part>): seq<Part>
    requires s != [] && t != [] && s[|s| - 1].Text? && t[0].Text?
  {
    s[..|s| - 1] + [Text(s[|s| - 1].text + t[0].text)] + t[1..]
  }

  lemma {:induction false} NotEmptyPieces(text: string, split: Segmenter)
    requires Segments(split) && text != ""
    ensures split(text) != [] && split(text)[0] != "" && split(text)[|split(text)| - 1] != ""
  {
    var pieces := split(text);
    assert Concat(pieces) == text;
    assert pieces != [];
    assert pieces[0] in pieces && pieces[|pieces| - 1] in pieces;
  }

  lemma {:induction false} FuseInTheMiddle(front: seq<Part>, s: seq<string>, t: seq<string>, back: seq<Part>)
    requires s != [] && t != []
    ensures var u, v := front + TextTokens(s), TextTokens(t) + back;
            u[|u| - 1].Text? && v[0].Text? && front + TextTokens(Fused(s, t)) + back == FusedTokens(u, v)
  {
    var u, v := front + TextTokens(s), TextTokens(t) + back;
    var m := s[|s| - 1] + t[0];
    TextTokensPlus(s[..|s| - 1] + [m], t[1..]);
    TextTokensPlus(s[..|s| - 1], [m]);
    assert TextTokens([m]) == [Text(m)];
    assert u[..|u| - 1] == front + TextTokens(s[..|s| - 1]);
    assert v[1..] == TextTokens(t[1..]) + back;
  }

  /** A carriage return and a line feed that come together become one token. */
  lemma {:induction false} CutAtCrLf(f: seq<Part>, g: seq<Part>, split: Segmenter)
    requires CutsAtLineEnds(split) && Solid(f) && Solid(g) && SplitsCrLf(f, g)
    ensures var s, t := Cut(f, split), Cut(g, split);
            s != [] && t != [] && s[|s| - 1].Text? && t[0].Text? && Cut(f + g, split) == FusedTokens(s, t)
  {
    SeamTexts(f, g);
    var x, y := TailText(f), HeadText(g);
    assert AtLineEnd(x, y) && CrLf(x, y);
    CutJoined(f, g, split);
    CutAtTail(f, split);
    CutAtHead(g, split);
    NotEmptyPieces(x, split);
    NotEmptyPieces(y, split);
    FuseInTheMiddle(Front(f, split), split(x), split(y), Back(g, split));
  }

  lemma {:induction false} CutIsSolid(f: seq<Part>, split: Segmenter)
    requires Segments(split)
    ensures Solid(Cut(f, split))
  {
    SolidTokens(PartsFromTokens(f), split);
  }

  lemma {:induction false} SolidTokens(parts: seq<Part>, split: Segmenter)
    requires Segments(split)
    ensures Solid(TokensOfParts(parts, split))
  {
    if parts != [] {
      SolidTokens(parts[..|parts| - 1], split);
      var last := parts[|parts| - 1];
      if last.Text? {
        var pieces := split(last.text);
        forall i | 0 <= i < |pieces| ensures pieces[i] != "" { assert pieces[i] in pieces; }
      }
    }
  }

  lemma {:induction false} BeginningHoldsLess(u: seq<Part>, x: seq<Part>, whole: seq<Part>)
    requires u <= whole && x <= whole && Solid(whole) && |u| <= |x|
    ensures |Flat(u)| <= |Flat(x)|
  {
    if |u| < |x| { LongerHoldsMore(u, x, whole); } else { assert u == x; }
  }

  /** No beginning of a token sequence ends within a token. */
  lemma {:induction false} NoSeamWithin(us: seq<Part>, left: seq<Part>, m: Part, whole: seq<Part>, n: nat)
    requires us <= whole && left <= whole && left + [m] <= whole && Solid(whole)
    requires |Flat(left)| < n < |Flat(left + [m])|
    ensures |Flat(us)| != n
  {
    if |us| <= |left| {
      BeginningHoldsLess(us, left, whole);
    } else {
      BeginningHoldsLess(left + [m], us, whole);
    }
  }

  lemma {:induction false} FusedSizes(left: seq<Part>, last: Part, m: Part)
    requires last.Text? && m.Text? && last.text != "" && |last.text| < |m.text|
    ensures |Flat(left)| < |Flat(left + [last])| < |Flat(left + [m])|
  {
    FlatPlus(left, [last]);
    FlatPlus(left, [m]);
    FlatSingle(m);
    FlatSingle(last);
  }

  lemma {:induction false} FusedHasNoSeam(us: seq<Part>, vs: seq<Part>, s: seq<Part>, t: seq<Part>)
    requires s != [] && t != [] && s[|s| - 1].Text? && t[0].Text?
    requires Solid(us + vs) && Solid(s) && Solid(t) && us + vs == FusedTokens(s, t)
    ensures |Flat(us)| != |Flat(s)|
  {
    var left, last := s[..|s| - 1], s[|s| - 1];
    var m := Text(last.text + t[0].text);
    FusedSizes(left, last, m);
    assert s == left + [last];
    NoSeamWithin(us, left, m, us + vs, |Flat(s)|);
  }

  /** A loose seam between tokens that are cut rightly: it is no `\r` before a `\n`, and
      both sides are cut rightly by themselves. */
  lemma {:induction false} LooseSeamHolds(us: seq<Part>, vs: seq<Part>, split: Segmenter)
    requires CutsAtLineEnds(split) && Solid(us) && Solid(vs) && Stable(us + vs, split) && Loose(us, vs)
    ensures !SplitsCrLf(us, vs) && Stable(us, split) && Stable(vs, split)
  {
    FlatOfCut(us, split);
    CutIsSolid(us, split);
    CutIsSolid(vs, split);
    if SplitsCrLf(us, vs) {
      CutAtCrLf(us, vs, split);
      FusedHasNoSeam(us, vs, Cut(us, split), Cut(vs, split));
    } else {
      CutAtLoose(us, vs, split);
      SameBeginning(us, vs, Cut(us, split), Cut(vs, split));
    }
  }

  lemma {:induction false} PiecesFit(pieces: seq<string>)
    requires forall piece <- pieces :: piece != ""
    ensures |pieces| <= |Concat(pieces)|
  {
    if pieces != [] {
      assert pieces[0] in pieces;
      assert forall piece <- pieces[1..] :: piece in pieces;
      PiecesFit(pieces[1..]);
    }
  }

  lemma {:induction false} OneCharacter(c: char, split: Segmenter)
    requires Segments(split)
    ensures Cut([Text([c])], split) == [Text([c])]
  {
    var pieces := split([c]);
    assert Concat(pieces) == [c];
    NotEmptyPieces([c], split);
    PiecesFit(pieces);
    assert pieces == [pieces[0]];
    ConcatOne(pieces[0]);
    assert [Text([c])][..0] == [] && AddTokens([], []) == [];
    assert PartsFromTokens([Text([c])]) == [Text([c])];
    TokensOfSingle(Text([c]), split);
  }

  // ------------------------------------------------- flat content at its ends

  lemma {:induction false} FlatIsSolid(f: seq<Part>)
    ensures Solid(Flat(f))
  {
    if f != [] { FlatIsSolid(f[..|f| - 1]); }
  }

  lemma {:induction false} FlatEnd(f: seq<Part>)
    requires Solid(f) && f != []
    ensures var flat := Flat(f);
            flat != [] && flat[|flat| - 1] == if TextLast(f) then Text([LastChar(f[|f| - 1].text)]) else f[|f| - 1]
  {
    var one := FlatOne(f[|f| - 1]);
    assert one != [] && Flat(f)[|Flat(f)| - 1] == one[|one| - 1];
  }

  lemma {:induction false} FlatBegin(f: seq<Part>)
    requires Solid(f) && f != []
    ensures var flat := Flat(f); flat != [] && flat[0] == if TextFirst(f) then Text([f[0].text[0]]) else f[0]
  {
    assert f == [f[0]] + f[1..];
    FlatPlus([f[0]], f[1..]);
    FlatSingle(f[0]);
  }

  lemma {:induction false} FlatOfStable(k: seq<Part>, split: Segmenter)
    requires Solid(k) && Stable(k, split)
    ensures Cut(Flat(k), split) == k && Solid(Flat(k))
  {
    CutOfFlat(k, split);
    FlatIsSolid(k);
  }

  lemma {:induction false} FlatEndsAlike(f: seq<Part>, c: char)
    requires Solid(f)
    ensures EndsIn(f, c) <==> EndsIn(Flat(f), c)
    ensures BeginsWith(f, c) <==> BeginsWith(Flat(f), c)
  {
    if f != [] {
      FlatEnd(f);
      FlatBegin(f);
    }
  }

  /** Tokens up to a line end do not depend on what follows. */
  lemma {:induction false} CutBefore(
      flat: seq<Part>, fu: seq<Part>, rest: seq<Part>, k: seq<Part>, u: seq<Part>, split: Segmenter)
    requires CutsAtLineEnds(split) && Solid(fu) && Solid(rest) && flat == fu + rest
    requires Cut(flat, split) == k && Cut(fu, split) == u && EndsIn(fu, '\n')
    ensures u <= k
  {
    CutAtLoose(fu, rest, split);
  }

  /** Tokens from a line end on do not depend on what comes before, unless that is the first
      half of the line end. */
  lemma {:induction false} CutBehind(
      flat: seq<Part>, rest: seq<Part>, fv: seq<Part>, k: seq<Part>, v: seq<Part>, split: Segmenter)
    requires CutsAtLineEnds(split) && Solid(rest) && Solid(fv) && flat == rest + fv
    requires Cut(flat, split) == k && Cut(fv, split) == v && BeginsWithBreak(fv) && !SplitsCrLf(rest, fv)
    ensures |v| <= |k| && k[|k| - |v|..] == v
  {
    CutAtLoose(rest, fv, split);
    assert k == Cut(rest, split) + v;
  }

  lemma {:induction false} SolidSplit(flat: seq<Part>, f: seq<Part>, g: seq<Part>)
    requires Solid(flat) && flat == f + g
    ensures Solid(f) && Solid(g)
  {
    assert forall i | 0 <= i < |f| :: f[i] == flat[i];
    assert forall i | 0 <= i < |g| :: g[i] == flat[|f| + i];
  }

  lemma {:induction false} CrStandsAlone(f: seq<Part>, split: Segmenter)
    requires CutsAtLineEnds(split) && Solid(f) && Stable(f, split) && EndsIn(f, '\r')
    ensures f[|f| - 1] == CR
  {
    var flat := Flat(f);
    FlatOfStable(f, split);
    FlatEnd(f);
    CrIsLast(flat[..|flat| - 1], flat, f, split);
  }

  lemma {:induction false} CrIsLast(before: seq<Part>, flat: seq<Part>, f: seq<Part>, split: Segmenter)
    requires CutsAtLineEnds(split) && Solid(flat) && Cut(flat, split) == f
    requires flat != [] && before == flat[..|flat| - 1] && flat[|flat| - 1] == CR
    ensures f != [] && f[|f| - 1] == CR
  {
    InTwo(flat, |flat| - 1);
    SolidSplit(flat, before, [CR]);
    CutAtLoose(before, [CR], split);
    OneCharacter('\r', split);
  }

  lemma {:induction false} InTwo<T>(s: seq<T>, i: nat)
    requires i <= |s|
    ensures s == s[..i] + s[i..] && (i + 1 == |s| ==> s[i..] == [s[i]])
  {
  }

  lemma {:induction false} InThree<T>(s: seq<T>, i: nat, j: nat)
    requires i <= j <= |s|
    ensures s == s[..i] + (s[i..j] + s[j..])
  {
  }

  lemma {:induction false} LfStandsAlone(g: seq<Part>, split: Segmenter)
    requires CutsAtLineEnds(split) && Solid(g) && Stable(g, split) && BeginsWith(g, '\n')
    ensures g[0] == LF
  {
    var flat := Flat(g);
    FlatOfStable(g, split);
    FlatBegin(g);
    LfIsFirst(flat[1..], flat, g, split);
  }

  lemma {:induction false} LfIsFirst(rest: seq<Part>, flat: seq<Part>, g: seq<Part>, split: Segmenter)
    requires CutsAtLineEnds(split) && Solid(flat) && Cut(flat, split) == g
    requires flat != [] && rest == flat[1..] && flat[0] == LF
    ensures g != [] && g[0] == LF
  {
    assert flat == [LF] + rest;
    SolidSplit(flat, [LF], rest);
    CutAtLoose([LF], rest, split);
    OneCharacter('\n', split);
  }

  lemma {:induction false} SolidParts(u: seq<Part>, i: seq<Part>, v: seq<Part>)
    requires Solid(u + (i + v))
    ensures Solid(u) && Solid(i) && Solid(v)
  {
    var whole := u + (i + v);
    assert forall k | 0 <= k < |u| :: whole[k] == u[k];
    assert forall k | 0 <= k < |i| :: whole[|u| + k] == i[k];
    assert forall k | 0 <= k < |v| :: whole[|u| + |i| + k] == v[k];
  }

  predicate BreakToken(t: Part) {
    t.Text? && |t.text| == 1 && IsBreak(t.text[0])
  }

  /** The sides of the gap, as the content before the change has them. */
  ghost predicate Sides(a: seq<Part>, left: seq<Part>, right: seq<Part>, split: Segmenter) {
    && Solid(left) && Solid(right) && Stable(left, split) && Stable(right, split)
    && |left| + |right| <= |a|
    && Keys(a[..|left|]) == Keys(left) && Keys(a[|a| - |right|..]) == Keys(right)
  }

  /** Content, cut rightly, in which line ends came in between `u` and `v`. */
  lemma {:induction false} AroundBreaks(u: seq<Part>, i: seq<Part>, v: seq<Part>, split: Segmenter)
    requires CutsAtLineEnds(split) && Solid(u) && Solid(i) && Solid(v) && Stable(u + (i + v), split)
    requires i != [] && OnlyLineBreaks(i)
    ensures Stable(u, split) && Stable(u + i, split) && Stable(i + v, split) && Stable(v, split)
    ensures !SplitsCrLf(u, i + v)
    ensures EndsIn(u + i, '\n') && BeginsWithBreak(i + v)
  {
    LineBreakEnds(u, i, v);
    LooseSeamHolds(u, i + v, split);
    Regroup3(u, i, v);
    LooseSeamHolds(u + i, v, split);
  }

  lemma {:induction false} LineBreakEnds(u: seq<Part>, i: seq<Part>, v: seq<Part>)
    requires i != [] && OnlyLineBreaks(i) && Solid(u) && Solid(i) && Solid(v)
    ensures EndsIn(u + i, '\n') && BeginsWithBreak(i + v)
    ensures Solid(u + i) && Solid(i + v)
  {
    assert IsLineBreak(i[0]) && (i + v)[0] == i[0];
    assert IsLineBreak(i[|i| - 1]) && (u + i)[|u + i| - 1] == i[|i| - 1];
  }
}
