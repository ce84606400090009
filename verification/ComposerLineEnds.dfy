/** What line ends do to the clean-up after a deleted reference: exactly when doing it twice
    is doing it once. */
module ComposerLineEnds {
  import opened Prelude
  import opened Composer
  import opened ComposerHistory
  import opened ComposerCuts
  import opened ComposerSeams

  // --------------------------------------------------- after a first clean-up

  /** Both sides of the gap are cut rightly, because line ends stood between them. */
  lemma {:induction false} SidesAreStable(a: seq<Part>, b: seq<Part>, r: Affixes, split: Segmenter)
    requires CutsAtLineEnds(split) && Solid(b) && Stable(b, split)
    requires r == AffixesOf(a, b, SameToken) && LeavesScaffolding(a, b)
    ensures Stable(b[..r.prefix], split) && Stable(b[|b| - r.suffix..], split)
  {
    var q := |b| - r.suffix;
    InThree(b, r.prefix, q);
    SolidParts(b[..r.prefix], b[r.prefix..q], b[q..]);
    AroundBreaks(b[..r.prefix], b[r.prefix..q], b[q..], split);
  }

  /** The gap lies between a `\r` and a `\n`. */
  predicate GapInCrLf(a: seq<Part>, b: seq<Part>) {
    var r := AffixesOf(a, b, SameToken);
    r.prefix > 0 && r.suffix > 0 && b[r.prefix - 1] == CR && b[|b| - r.suffix] == LF
  }

  lemma {:induction false} CrLfStandAlone(left: seq<Part>, right: seq<Part>, split: Segmenter)
    requires CutsAtLineEnds(split) && Solid(left) && Solid(right) && Stable(left, split) && Stable(right, split)
    ensures SplitsCrLf(left, right) <==>
            left != [] && right != [] && left[|left| - 1] == CR && right[0] == LF
  {
    if SplitsCrLf(left, right) {
      CrStandsAlone(left, split);
      LfStandsAlone(right, split);
    }
  }

  lemma {:induction false} KeysTell(a: seq<Part>, b: seq<Part>, i: nat)
    requires Keys(a) == Keys(b) && i < |a|
    ensures |a| == |b| && SameToken(a[i], b[i])
  {
    assert |Keys(a)| == |Keys(b)|;
    assert Keys(a)[i] == Keys(b)[i];
  }

  /** The line end that comes together in the gap looks like scaffolding. */
  lemma {:induction false} FusedAffixes(a: seq<Part>, left: seq<Part>, right: seq<Part>)
    requires left != [] && right != [] && |left| + |right| <= |a|
    requires left[|left| - 1] == CR && right[0] == LF
    requires Keys(a[..|left|]) == Keys(left) && Keys(a[|a| - |right|..]) == Keys(right)
    ensures AffixesOf(a, FusedTokens(left, right), SameToken) == Affixes(|left| - 1, |right| - 1)
  {
    var c := FusedTokens(left, right);
    var p, s := |left| - 1, |right| - 1;
    forall i | 0 <= i < p ensures SameToken(a[i], c[i]) {
      KeysTell(a[..|left|], left, i);
    }
    KeysTell(a[..|left|], left, p);
    assert c[p] == CRLF;
    PrefixIsUnique(a, c, SameToken, p);
    var x, y := a[p..], c[p..];
    forall i: nat | i < s ensures SameToken(FromEnd(x, i), FromEnd(y, i)) {
      KeysTell(a[|a| - |right|..], right, s - i);
    }
    KeysTell(a[|a| - |right|..], right, 0);
    assert FromEnd(x, s) == a[|a| - |right|] && FromEnd(y, s) == CRLF;
    SuffixIsLongest(x, y, SameToken, s);
  }

  lemma {:induction false} FusedLeavesScaffolding(a: seq<Part>, left: seq<Part>, right: seq<Part>, i: nat)
    requires left != [] && right != [] && |left| <= i < |a| - |right| && IsReference(a[i])
    requires left[|left| - 1] == CR && right[0] == LF
    requires Keys(a[..|left|]) == Keys(left) && Keys(a[|a| - |right|..]) == Keys(right)
    ensures LeavesScaffolding(a, FusedTokens(left, right))
  {
    FusedAffixes(a, left, right);
    var c, r := FusedTokens(left, right), Affixes(|left| - 1, |right| - 1);
    assert Removed(a, r)[i - r.prefix] == a[i];
    assert CR.text + LF.text == CRLF.text;
    assert Removed(c, r) == [CRLF];
  }

  // ------------------------------------- texts that come together otherwise

  lemma {:induction false} FlatOfBreaks(tokens: seq<Part>)
    requires OnlyLineBreaks(tokens)
    ensures forall i | 0 <= i < |Flat(tokens)| :: BreakToken(Flat(tokens)[i])
  {
    if tokens != [] {
      FlatOfBreaks(tokens[..|tokens| - 1]);
      var last := tokens[|tokens| - 1];
      assert IsLineBreak(last);
    }
  }

  /** Line ends lie on one side of a seam that has none beside it. */
  lemma {:induction false} BreaksOnOneSide(f: seq<Part>, g: seq<Part>, u: seq<Part>, i: seq<Part>, v: seq<Part>)
    requires f + g == u + i + v && i != [] && forall k | 0 <= k < |i| :: BreakToken(i[k])
    requires f != [] && g != [] && !BreakToken(f[|f| - 1]) && !BreakToken(g[0])
    ensures |u| + |i| < |f| || |f| < |u|
  {
    var whole := f + g;
    assert forall k | |u| <= k < |u| + |i| :: whole[k] == i[k - |u|];
    assert whole[|f| - 1] == f[|f| - 1] && whole[|f|] == g[0];
  }

  lemma {:induction false} PrefixReaches(a: seq<Part>, c: seq<Part>, n: nat)
    requires n <= |a| && n <= |c| && Keys(a[..n]) == Keys(c[..n])
    ensures n <= AffixesOf(a, c, SameToken).prefix
  {
    forall i | 0 <= i < n ensures SameToken(a[i], c[i]) {
      KeysTell(a[..n], c[..n], i);
    }
    PrefixIsLongest(a, c, SameToken, n);
  }

  lemma {:induction false} SuffixReaches(a: seq<Part>, c: seq<Part>, r: Affixes, m: nat)
    requires r == AffixesOf(a, c, SameToken) && m == |c| - r.prefix <= |a|
    requires Keys(a[|a| - m..]) == Keys(c[r.prefix..])
    ensures r.suffix == m || r.suffix == |a| - r.prefix
  {
    var x, y := a[r.prefix..], c[r.prefix..];
    var n := Min(|x|, m);
    forall i: nat | i < n ensures SameToken(FromEnd(x, i), FromEnd(y, i)) {
      KeysTell(a[|a| - m..], y, m - 1 - i);
    }
    SuffixIsLongest(x, y, SameToken, n);
  }

  lemma {:induction false} KeysOfPrefix(a: seq<Part>, k: seq<Part>, n: nat)
    requires |k| <= |a| && n <= |k| && Keys(a[..|k|]) == Keys(k)
    ensures Keys(a[..n]) == Keys(k[..n])
  {
    forall i | 0 <= i < n ensures Key(a[i]) == Key(k[i]) { KeysTell(a[..|k|], k, i); }
  }

  lemma {:induction false} KeysOfSuffix(a: seq<Part>, k: seq<Part>, n: nat)
    requires |k| <= |a| && n <= |k| && Keys(a[|a| - |k|..]) == Keys(k)
    ensures Keys(a[|a| - n..]) == Keys(k[|k| - n..])
  {
    var x, y := a[|a| - n..], k[|k| - n..];
    forall i | 0 <= i < n ensures Key(x[i]) == Key(y[i]) {
      KeysTell(a[|a| - |k|..], k, |k| - n + i);
    }
  }

  lemma {:induction false} KeysOfTail(a: seq<Part>, k: seq<Part>, tail: seq<Part>)
    requires |tail| <= |k| <= |a| && Keys(a[|a| - |k|..]) == Keys(k) && k[|k| - |tail|..] == tail
    ensures Keys(a[|a| - |tail|..]) == Keys(tail)
  {
    KeysOfSuffix(a, k, |tail|);
  }

  lemma {:induction false} BeginsBefore<T>(u: seq<T>, v: seq<T>, f: seq<T>, g: seq<T>)
    requires u + v == f + g && |u| <= |f|
    ensures u <= f
  {
    assert forall k | 0 <= k < |u| :: u[k] == (u + v)[k] && f[k] == (f + g)[k];
  }

  lemma {:induction false} TightSides(left: seq<Part>, right: seq<Part>)
    requires Solid(left) && Solid(right) && !Loose(left, right)
    ensures Flat(left) != [] && Flat(right) != []
    ensures !BreakToken(Flat(left)[|Flat(left)| - 1]) && !BreakToken(Flat(right)[0])
  {
    FlatEnd(left);
    FlatBegin(right);
  }

  lemma {:induction false} FlatBreaks(i: seq<Part>)
    requires i != [] && OnlyLineBreaks(i) && Solid(i)
    ensures Flat(i) != [] && forall k | 0 <= k < |Flat(i)| :: BreakToken(Flat(i)[k])
  {
    FlatOfBreaks(i);
    FlatIsLonger(i);
  }

  /** Line ends in joined content lie on one side of a seam that has none beside it. */
  lemma {:induction false} BesideTheSeam(
    left: seq<Part>, right: seq<Part>, fl: seq<Part>, fr: seq<Part>, fu: seq<Part>, i: seq<Part>, fv: seq<Part>)
    requires Solid(left) && Solid(right) && !Loose(left, right) && fl == Flat(left) && fr == Flat(right)
    requires i != [] && OnlyLineBreaks(i) && Solid(i) && fl + fr == fu + Flat(i) + fv
    ensures |fu| + |Flat(i)| < |fl| || |fl| < |fu|
  {
    TightSides(left, right);
    FlatBreaks(i);
    BreaksOnOneSide(fl, fr, fu, Flat(i), fv);
  }

  lemma {:induction false} OnTheLeft(left: seq<Part>, u: seq<Part>, split: Segmenter)
    requires CutsAtLineEnds(split) && Solid(left) && Stable(left, split) && Solid(u) && Stable(u, split)
    requires EndsIn(u, '\n') && Flat(u) <= Flat(left)
    ensures u <= left
  {
    FlatOfStable(left, split);
    FlatOfStable(u, split);
    FlatEndsAlike(u, '\n');
    FlatOnTheLeft(Flat(left), Flat(u), left, u, split);
  }

  lemma {:induction false} FlatOnTheLeft(fl: seq<Part>, fu: seq<Part>, left: seq<Part>, u: seq<Part>, split: Segmenter)
    requires CutsAtLineEnds(split) && Solid(fl) && Cut(fl, split) == left && Cut(fu, split) == u
    requires EndsIn(fu, '\n') && fu <= fl
    ensures u <= left
  {
    var rest := fl[|fu|..];
    InTwo(fl, |fu|);
    SolidSplit(fl, fu, rest);
    CutBefore(fl, fu, rest, left, u, split);
  }

  lemma {:induction false} OnTheRight(right: seq<Part>, rest: seq<Part>, w: seq<Part>, split: Segmenter)
    requires CutsAtLineEnds(split) && Solid(right) && Stable(right, split) && Solid(w) && Stable(w, split)
    requires BeginsWithBreak(w) && Flat(right) == rest + Flat(w) && !SplitsCrLf(rest, w)
    ensures |w| <= |right| && right[|right| - |w|..] == w
  {
    FlatOfStable(right, split);
    FlatOfStable(w, split);
    FlatEndsAlike(w, '\n');
    FlatEndsAlike(w, '\r');
    SolidSplit(Flat(right), rest, Flat(w));
    CutBehind(Flat(right), rest, Flat(w), right, w, split);
  }

  lemma {:induction false} RestOfRight(
      fl: seq<Part>, fr: seq<Part>, fu: seq<Part>, fw: seq<Part>) returns (rest: seq<Part>)
    requires fl + fr == fu + fw && |fl| < |fu|
    ensures fr == rest + fw && rest != [] && rest[|rest| - 1] == fu[|fu| - 1]
  {
    var whole := fl + fr;
    rest := whole[|fl|..|fu|];
    assert fr == whole[|fl|..] && fw == whole[|fu|..];
    assert fu[|fu| - 1] == whole[|fu| - 1];
  }

  lemma {:induction false} NotInCrLf(u: seq<Part>, fu: seq<Part>, rest: seq<Part>, w: seq<Part>)
    requires Solid(u) && fu == Flat(u) && fu != [] && rest != [] && rest[|rest| - 1] == fu[|fu| - 1]
    requires !SplitsCrLf(u, w)
    ensures !SplitsCrLf(rest, w)
  {
    FlatEndsAlike(u, '\r');
  }

  lemma {:induction false} FlatsOfThree(left: seq<Part>, right: seq<Part>, u: seq<Part>, i: seq<Part>, v: seq<Part>)
    requires Flat(left + right) == Flat(u + (i + v))
    ensures Flat(left) + Flat(right) == Flat(u) + Flat(i) + Flat(v)
    ensures Flat(u + i) == Flat(u) + Flat(i) && Flat(i + v) == Flat(i) + Flat(v)
    ensures Flat(left) + Flat(right) == Flat(u) + Flat(i + v) && Flat(left) + Flat(right) == Flat(u + i) + Flat(v)
  {
    FlatPlus(left, right);
    FlatPlus(u, i + v);
    FlatPlus(i, v);
    FlatPlus(u, i);
    Regroup3(Flat(u), Flat(i), Flat(v));
  }

  /** Line ends in content that was joined without one stand in one of its sides as well,
      with everything on their far side. */
  ghost predicate Found(left: seq<Part>, right: seq<Part>, u: seq<Part>, i: seq<Part>, v: seq<Part>) {
    u + i <= left || (|i + v| <= |right| && right[|right| - |i + v|..] == i + v)
  }

  lemma {:induction false} FoundOnTheLeft(
      left: seq<Part>, right: seq<Part>, u: seq<Part>, i: seq<Part>, v: seq<Part>, split: Segmenter)
    requires CutsAtLineEnds(split) && Solid(left) && Stable(left, split)
    requires Solid(u + i) && Stable(u + i, split) && EndsIn(u + i, '\n')
    requires Flat(left) + Flat(right) == Flat(u + i) + Flat(v) && |Flat(u + i)| <= |Flat(left)|
    ensures Found(left, right, u, i, v)
  {
    BeginsBefore(Flat(u + i), Flat(v), Flat(left), Flat(right));
    OnTheLeft(left, u + i, split);
  }

  lemma {:induction false} FoundOnTheRight(
      left: seq<Part>, right: seq<Part>, u: seq<Part>, i: seq<Part>, v: seq<Part>, split: Segmenter)
    requires CutsAtLineEnds(split) && Solid(right) && Stable(right, split) && Solid(u)
    requires Solid(i + v) && Stable(i + v, split) && BeginsWithBreak(i + v) && !SplitsCrLf(u, i + v)
    requires Flat(left) + Flat(right) == Flat(u) + Flat(i + v) && |Flat(left)| < |Flat(u)|
    ensures Found(left, right, u, i, v)
  {
    EndOfRight(Flat(left), Flat(right), Flat(u), Flat(i + v), right, u, i + v, split);
  }

  lemma {:induction false} EndOfRight(
      fl: seq<Part>, fr: seq<Part>, fu: seq<Part>, fw: seq<Part>, right: seq<Part>, u: seq<Part>, w: seq<Part>,
      split: Segmenter)
    requires CutsAtLineEnds(split) && Solid(right) && Stable(right, split) && Solid(u)
    requires Solid(w) && Stable(w, split) && BeginsWithBreak(w) && !SplitsCrLf(u, w)
    requires fl + fr == fu + fw && |fl| < |fu| && fr == Flat(right) && fu == Flat(u) && fw == Flat(w)
    ensures |w| <= |right| && right[|right| - |w|..] == w
  {
    var rest := RestOfRight(fl, fr, fu, fw);
    NotInCrLf(u, fu, rest, w);
    OnTheRight(right, rest, w, split);
  }

  lemma {:induction false} BreaksAreFound(
      left: seq<Part>, right: seq<Part>, u: seq<Part>, i: seq<Part>, v: seq<Part>, split: Segmenter)
    requires CutsAtLineEnds(split) && Solid(left) && Solid(right) && Stable(left, split) && Stable(right, split)
    requires !Loose(left, right) && Solid(u) && Solid(i) && Solid(v) && i != [] && OnlyLineBreaks(i)
    requires Stable(u + (i + v), split) && Flat(left + right) == Flat(u + (i + v))
    ensures Found(left, right, u, i, v)
  {
    AroundBreaks(u, i, v, split);
    LineBreakEnds(u, i, v);
    FlatsOfThree(left, right, u, i, v);
    BesideTheSeam(left, right, Flat(left), Flat(right), Flat(u), i, Flat(v));
    if |Flat(left)| < |Flat(u)| {
      FoundOnTheRight(left, right, u, i, v, split);
    } else {
      FoundOnTheLeft(left, right, u, i, v, split);
    }
  }

  lemma {:induction false} CutIsStable(f: seq<Part>, c: seq<Part>, split: Segmenter)
    requires Segments(split) && Solid(f) && c == Cut(f, split)
    ensures Stable(c, split) && Solid(c) && Flat(c) == Flat(f)
  {
    CutIsSolid(f, split);
    FlatOfCut(f, split);
    CutOfFlat(f, split);
    CutOfFlat(c, split);
  }

  /** What is found in a side is there in the content before the change, so that it does not
      look new. */
  lemma {:induction false} FoundIsNotNew(
    a: seq<Part>, left: seq<Part>, right: seq<Part>, c: seq<Part>, r: Affixes, u: seq<Part>, i: seq<Part>, v: seq<Part>)
    requires |left| + |right| <= |a| && Keys(a[..|left|]) == Keys(left) && Keys(a[|a| - |right|..]) == Keys(right)
    requires c == u + (i + v) && r == AffixesOf(a, c, SameToken) && r.prefix == |u| && r.suffix == |v|
    requires Found(left, right, u, i, v) && i != []
    ensures r.suffix == |a| - r.prefix
  {
    if u + i <= left {
      Regroup3(u, i, v);
      var n := |u + i|;
      KeysOfPrefix(a, left, n);
      assert c[..n] == u + i && left[..n] == u + i;
      PrefixReaches(a, c, n);
    } else {
      KeysOfTail(a, right, i + v);
      assert c[|u|..] == i + v;
      SuffixReaches(a, c, r, |i + v|);
    }
  }

  lemma {:induction false} NothingNew(
    a: seq<Part>, left: seq<Part>, right: seq<Part>, c: seq<Part>, r: Affixes,
    u: seq<Part>, i: seq<Part>, v: seq<Part>, split: Segmenter)
    requires CutsAtLineEnds(split) && Sides(a, left, right, split) && !Loose(left, right)
    requires r == AffixesOf(a, c, SameToken) && r.prefix == |u| && r.suffix == |v| && c == u + (i + v)
    requires Stable(c, split) && Solid(c) && Flat(c) == Flat(left + right)
    requires i != [] && OnlyLineBreaks(i)
    ensures r.suffix == |a| - r.prefix
  {
    SolidParts(u, i, v);
    BreaksAreFound(left, right, u, i, v, split);
    FoundIsNotNew(a, left, right, c, r, u, i, v);
  }

  /** Where two texts come together without a line end, no line end can look new: either
      side had it before. */
  lemma {:induction false} TightLeavesNothing(
      a: seq<Part>, left: seq<Part>, right: seq<Part>, c: seq<Part>, split: Segmenter)
    requires CutsAtLineEnds(split) && Sides(a, left, right, split) && !Loose(left, right)
    requires c == Cut(left + right, split)
    ensures !LeavesScaffolding(a, c)
  {
    var r := AffixesOf(a, c, SameToken);
    CutIsStable(left + right, c, split);
    NothingNewInRange(a, left, right, c, r, |c| - r.suffix, split);
    LeavesInRange(a, c, r, |c| - r.suffix);
  }

  lemma {:induction false} NothingNewInRange(
    a: seq<Part>, left: seq<Part>, right: seq<Part>, c: seq<Part>, r: Affixes, q: nat, split: Segmenter)
    requires CutsAtLineEnds(split) && Sides(a, left, right, split) && !Loose(left, right)
    requires r == AffixesOf(a, c, SameToken) && q == |c| - r.suffix
    requires Stable(c, split) && Solid(c) && Flat(c) == Flat(left + right)
    ensures c[r.prefix..q] != [] && OnlyLineBreaks(c[r.prefix..q]) ==> r.suffix == |a| - r.prefix
  {
    InThree(c, r.prefix, q);
    if c[r.prefix..q] != [] && OnlyLineBreaks(c[r.prefix..q]) {
      NothingNew(a, left, right, c, r, c[..r.prefix], c[r.prefix..q], c[q..], split);
    }
  }

  lemma {:induction false} LeavesInRange(a: seq<Part>, c: seq<Part>, r: Affixes, q: nat)
    requires r == AffixesOf(a, c, SameToken) && q == |c| - r.suffix
    ensures LeavesScaffolding(a, c) ==>
              c[r.prefix..q] != [] && OnlyLineBreaks(c[r.prefix..q]) && r.suffix < |a| - r.prefix
  {
  }

  lemma {:induction false} SecondLookAtCrLf(
      a: seq<Part>, b: seq<Part>, r: Affixes, left: seq<Part>, right: seq<Part>, split: Segmenter)
    requires CutsAtLineEnds(split) && LeavesScaffolding(a, b) && r == AffixesOf(a, b, SameToken)
    requires |left| == r.prefix && |right| == r.suffix && Sides(a, left, right, split) && SplitsCrLf(left, right)
    ensures LeavesScaffolding(a, Cut(left + right, split))
  {
    CrLfStandAlone(left, right, split);
    CutAtCrLf(left, right, split);
    ScaffoldingRanges(a, b);
    var i :| r.prefix <= i < |a| - r.suffix && IsReference(a[i]);
    FusedLeavesScaffolding(a, left, right, i);
  }

  lemma {:induction false} SidesAreKept(a: seq<Part>, b: seq<Part>, r: Affixes, left: seq<Part>, right: seq<Part>)
    requires r == AffixesOf(a, b, SameToken) && left == b[..r.prefix] && right == b[|b| - r.suffix..]
    ensures |left| == r.prefix && |right| == r.suffix
    ensures Keys(a[..|left|]) == Keys(left) && Keys(a[|a| - |right|..]) == Keys(right)
  {
    AffixesAsKeys(a, b);
  }

  lemma {:induction false} SidesOfGap(
      a: seq<Part>, b: seq<Part>, r: Affixes, left: seq<Part>, right: seq<Part>, split: Segmenter)
    requires Solid(b) && r == AffixesOf(a, b, SameToken) && left == b[..r.prefix] && right == b[|b| - r.suffix..]
    requires Stable(left, split) && Stable(right, split)
    ensures |left| == r.prefix && |right| == r.suffix && Sides(a, left, right, split)
  {
    SidesAreKept(a, b, r, left, right);
    SidesAreSolid(b, r, left, right);
  }

  lemma {:induction false} SecondLook(
      a: seq<Part>, b: seq<Part>, r: Affixes, left: seq<Part>, right: seq<Part>, split: Segmenter)
    requires CutsAtLineEnds(split) && Solid(b) && Stable(b, split) && LeavesScaffolding(a, b)
    requires r == AffixesOf(a, b, SameToken) && left == b[..r.prefix] && right == b[|b| - r.suffix..]
    requires KeptTokens(a, b) == left + right
    ensures LeavesScaffolding(a, Cut(left + right, split)) <==> SplitsCrLf(left, right)
    ensures Stable(left, split) && Stable(right, split)
  {
    SidesAreStable(a, b, r, split);
    SidesOfGap(a, b, r, left, right, split);
    if SplitsCrLf(left, right) {
      SecondLookAtCrLf(a, b, r, left, right, split);
    } else if Loose(left, right) {
      CutAtLoose(left, right, split);
      NothingLeft(a, b);
    } else {
      TightLeavesNothing(a, left, right, Cut(left + right, split), split);
    }
  }

  lemma {:induction false} TokensAfterCleanUp(before: Snapshot, after: Snapshot, split: Segmenter)
    requires Segments(split)
    requires LeavesScaffolding(Tokens(before.parts, split), Tokens(after.parts, split))
    ensures var a, b := Tokens(before.parts, split), Tokens(after.parts, split);
            Tokens(CleanUp(before, after, split).parts, split) == Cut(KeptTokens(a, b), split)
  {
    var a, b := Tokens(before.parts, split), Tokens(after.parts, split);
    CleanUpByTokens(before, after, split);
    TokensAreClean(after.parts, split);
    TypedIsClean(b, AffixesOf(a, b, SameToken), 0);
    TokensOfCleanTokens(KeptTokens(a, b), split);
  }

  lemma {:induction false} KeptIs(a: seq<Part>, b: seq<Part>, r: Affixes, left: seq<Part>, right: seq<Part>)
    requires r == AffixesOf(a, b, SameToken) && left == b[..r.prefix] && right == b[|b| - r.suffix..]
    ensures KeptTokens(a, b) == left + right
  {
    assert r.prefix + 0 == r.prefix;
  }

  lemma {:induction false} GapBySides(a: seq<Part>, b: seq<Part>, r: Affixes, left: seq<Part>, right: seq<Part>)
    requires r == AffixesOf(a, b, SameToken) && left == b[..r.prefix] && right == b[|b| - r.suffix..]
    ensures GapInCrLf(a, b) <==> left != [] && right != [] && left[|left| - 1] == CR && right[0] == LF
  {
  }

  lemma {:induction false} SecondLookExactly(
    a: seq<Part>, b: seq<Part>, r: Affixes, left: seq<Part>, right: seq<Part>, split: Segmenter)
    requires CutsAtLineEnds(split) && Solid(b) && Stable(b, split) && LeavesScaffolding(a, b)
    requires r == AffixesOf(a, b, SameToken) && left == b[..r.prefix] && right == b[|b| - r.suffix..]
    ensures LeavesScaffolding(a, Cut(KeptTokens(a, b), split)) <==> GapInCrLf(a, b)
  {
    KeptIs(a, b, r, left, right);
    SecondLook(a, b, r, left, right, split);
    SidesAreSolid(b, r, left, right);
    CrLfStandAlone(left, right, split);
    GapBySides(a, b, r, left, right);
  }

  lemma {:induction false} SidesAreSolid(b: seq<Part>, r: Affixes, left: seq<Part>, right: seq<Part>)
    requires Solid(b) && r.prefix + r.suffix <= |b| && left == b[..r.prefix] && right == b[|b| - r.suffix..]
    ensures Solid(left) && Solid(right)
  {
    InTwo(b, r.prefix);
    SolidSplit(b, left, b[r.prefix..]);
    InTwo(b, |b| - r.suffix);
    SolidSplit(b, b[..|b| - r.suffix], right);
  }

  /** The clean-up is idempotent exactly when the gap does not lie between a `\r` and a
      `\n`: only these two become, once joined, a line break that was not there. The
      condition is one on the content that is given. */
  lemma {:induction false} CleanUpTwice(before: Snapshot, after: Snapshot, split: Segmenter)
    requires CutsAtLineEnds(split)
    ensures var a, b := Tokens(before.parts, split), Tokens(after.parts, split);
            var once := CleanUp(before, after, split);
            CleanUp(before, once, split) == once <==> !(LeavesScaffolding(a, b) && GapInCrLf(a, b))
  {
    var a, b := Tokens(before.parts, split), Tokens(after.parts, split);
    if LeavesScaffolding(a, b) {
      TokensAreStable(after.parts, split);
      TokensAfterCleanUp(before, after, split);
      var r := AffixesOf(a, b, SameToken);
      SecondLookExactly(a, b, r, b[..r.prefix], b[|b| - r.suffix..], split);
      SecondCleanUp(before, after, split);
    } else {
      CleanUpByTokens(before, after, split);
    }
  }

  // ------------------------------------------------------ line ends only

  /** The grapheme rule for line ends: `\r\n` is one piece, any other character its own. */
  function LineEndPieces(text: string): seq<string> {
    if text == "" then []
    else if |text| > 1 && text[0] == '\r' && text[1] == '\n' then [text[..2]] + LineEndPieces(text[2..])
    else [text[..1]] + LineEndPieces(text[1..])
  }

  lemma {:induction false} LineEndPiecesTile(text: string)
    ensures Concat(LineEndPieces(text)) == text && forall piece <- LineEndPieces(text) :: piece != ""
  {
    if text != "" {
      var n := if |text| > 1 && text[0] == '\r' && text[1] == '\n' then 2 else 1;
      LineEndPiecesTile(text[n..]);
      var rest := LineEndPieces(text[n..]);
      assert LineEndPieces(text) == [text[..n]] + rest;
      assert ([text[..n]] + rest)[1..] == rest;
      assert text == text[..n] + text[n..];
    }
  }

  lemma {:induction false} PiecesOfFirst(text: string, n: nat)
    requires text != "" && n == if |text| > 1 && text[0] == '\r' && text[1] == '\n' then 2 else 1
    ensures LineEndPieces(text) == [text[..n]] + LineEndPieces(text[n..])
  {
  }

  lemma {:induction false} FusedBehind(p: string, s: seq<string>, t: seq<string>)
    requires s != [] && t != []
    ensures Fused([p] + s, t) == [p] + Fused(s, t)
  {
    assert ([p] + s)[..|s|] == [p] + s[..|s| - 1];
  }

  function JointPieces(x: string, y: string): seq<string> {
    if CrLf(x, y) then Fused(LineEndPieces(x), LineEndPieces(y)) else LineEndPieces(x) + LineEndPieces(y)
  }

  lemma {:induction false} FirstOfJoined(x: string, y: string, n: nat, rest: string)
    requires |x| > 1 && n == (if x[0] == '\r' && x[1] == '\n' then 2 else 1) && rest == x[n..]
    ensures LineEndPieces(x) == [x[..n]] + LineEndPieces(rest)
    ensures LineEndPieces(x + y) == [x[..n]] + LineEndPieces(rest + y)
  {
    PiecesOfFirst(x, n);
    SlicesOfJoined(x, y, n);
    PiecesOfFirst(x + y, n);
  }

  lemma {:induction false} SlicesOfJoined(x: string, y: string, n: nat)
    requires n <= |x|
    ensures (x + y)[..n] == x[..n] && (x + y)[n..] == x[n..] + y
    ensures forall i | 0 <= i < |x| :: (x + y)[i] == x[i]
  {
  }

  lemma {:induction false} SeamOfRest(x: string, y: string, n: nat, rest: string)
    requires |x| > 1 && n == (if x[0] == '\r' && x[1] == '\n' then 2 else 1) && rest == x[n..]
    ensures CrLf(x, y) <==> CrLf(rest, y)
    ensures CrLf(rest, y) ==> LineEndPieces(rest) != [] && LineEndPieces(y) != []
  {
    assert rest != "" ==> rest[|rest| - 1] == x[|x| - 1];
  }

  lemma {:induction false} JointBehind(p: string, s: seq<string>, t: seq<string>, fused: bool)
    requires fused ==> s != [] && t != []
    ensures (if fused then Fused([p] + s, t) else [p] + s + t) == [p] + if fused then Fused(s, t) else s + t
  {
    if fused { FusedBehind(p, s, t); } else { Regroup3([p], s, t); }
  }

  lemma {:induction false} PiecesOfRest(x: string, y: string, n: nat, rest: string)
    requires |x| > 1 && n == (if x[0] == '\r' && x[1] == '\n' then 2 else 1) && rest == x[n..]
    requires LineEndPieces(rest + y) == JointPieces(rest, y)
    ensures LineEndPieces(x + y) == JointPieces(x, y)
  {
    FirstOfJoined(x, y, n, rest);
    SeamOfRest(x, y, n, rest);
    JointBehind(x[..n], LineEndPieces(rest), LineEndPieces(y), CrLf(rest, y));
  }

  /** Joining two texts joins their pieces at a `\r\n` only. */
  lemma {:induction false} LineEndPiecesPlus(x: string, y: string)
    ensures LineEndPieces(x + y) == JointPieces(x, y)
  {
    if x == "" {
      assert x + y == y;
    } else if |x| == 1 {
      OneThenPieces(x, y);
    } else {
      var n := if x[0] == '\r' && x[1] == '\n' then 2 else 1;
      LineEndPiecesPlus(x[n..], y);
      PiecesOfRest(x, y, n, x[n..]);
    }
  }

  lemma {:induction false} OnePiece(x: string)
    requires |x| == 1
    ensures LineEndPieces(x) == [x]
  {
    PiecesOfFirst(x, 1);
    assert x[..1] == x && x[1..] == "" && LineEndPieces("") == [];
  }

  lemma {:induction false} CrLfIsOnePiece(x: string, y: string)
    requires |x| == 1 && CrLf(x, y)
    ensures LineEndPieces(y) == [y[..1]] + LineEndPieces(y[1..])
    ensures LineEndPieces(x + y) == [x + y[..1]] + LineEndPieces(y[1..])
  {
    PiecesOfFirst(y, 1);
    PiecesOfFirst(x + y, 2);
    assert (x + y)[..2] == x + y[..1] && (x + y)[2..] == y[1..];
  }

  lemma {:induction false} OneThenPieces(x: string, y: string)
    requires |x| == 1
    ensures LineEndPieces(x + y) == JointPieces(x, y)
  {
    OnePiece(x);
    if CrLf(x, y) {
      CrLfIsOnePiece(x, y);
      FusedOne(x, y[..1], LineEndPieces(y[1..]));
    } else {
      PiecesOfFirst(x + y, 1);
      assert (x + y)[..1] == x && (x + y)[1..] == y;
    }
  }

  lemma {:induction false} FusedOne(p: string, q: string, t: seq<string>)
    ensures Fused([p], [q] + t) == [p + q] + t
  {
    assert [p][..0] == [] && ([q] + t)[1..] == t;
  }

  lemma {:induction false} LineEndPiecesCut()
    ensures CutsAtLineEnds(LineEndPieces)
  {
    LineEndPiecesSegment();
    forall x, y | AtLineEnd(x, y)
      ensures LineEndPieces(x + y) ==
              if CrLf(x, y) then Fused(LineEndPieces(x), LineEndPieces(y)) else LineEndPieces(x) + LineEndPieces(y)
    {
      LineEndPiecesPlus(x, y);
    }
  }

  lemma {:induction false} LineEndPiecesSegment()
    ensures Segments(LineEndPieces)
  {
    forall text: string ensures Concat(LineEndPieces(text)) == text
      && forall piece <- LineEndPieces(text) :: piece != "" {
      LineEndPiecesTile(text);
    }
  }

  lemma {:induction false} NormalTokens(parts: seq<Part>, split: Segmenter)
    requires Normal(parts)
    ensures Tokens(parts, split) == TokensOfParts(parts, split)
  {
    NormalIsKept(parts);
  }

  lemma {:induction false} TokensOfThree(a: Part, b: Part, c: Part, split: Segmenter)
    ensures TokensOfParts([a, b, c], split) == TokensOfPart(a, split) + TokensOfPart(b, split) + TokensOfPart(c, split)
  {
    assert [a, b, c][..2] == [a, b] && [a, b][..1] == [a];
    TokensOfSingle(a, split);
  }

  lemma {:induction false} PiecesOfLineEnds()
    ensures TextTokens(LineEndPieces("\r")) == [CR]
    ensures TextTokens(LineEndPieces("\n")) == [LF]
    ensures TextTokens(LineEndPieces("\r\n")) == [CRLF]
    ensures TextTokens(LineEndPieces("\r\r\n\n")) == [CR, CRLF, LF]
  {
    assert LineEndPieces("") == [];
    assert "\n"[..1] == "\n" && "\n"[1..] == "" && LineEndPieces("\n") == ["\n"];
    assert "\r"[..1] == "\r" && "\r"[1..] == "" && LineEndPieces("\r") == ["\r"];
    assert "\r\n"[..2] == "\r\n" && "\r\n"[2..] == "" && LineEndPieces("\r\n") == ["\r\n"];
    assert "\r\n\n"[..2] == "\r\n" && "\r\n\n"[2..] == "\n";
    assert LineEndPieces("\r\n\n") == ["\r\n", "\n"];
    assert "\r\r\n\n"[..1] == "\r" && "\r\r\n\n"[1..] == "\r\n\n";
    assert LineEndPieces("\r\r\n\n") == ["\r", "\r\n", "\n"];
  }

  lemma {:induction false} FirstGap(image: Part)
    requires image.ImageRef?
    ensures AffixesOf([CR, image, LF], [CR, CRLF, LF], SameToken) == Affixes(1, 1)
    ensures AffixesOf([CR, image, LF], [CRLF], SameToken) == Affixes(0, 0)
  {
    var a := [CR, image, LF];
    PrefixIsUnique(a, [CR, CRLF, LF], SameToken, 1);
    var x, y := a[1..], [CR, CRLF, LF][1..];
    assert SameToken(FromEnd(x, 0), FromEnd(y, 0)) && !SameToken(FromEnd(x, 1), FromEnd(y, 1));
    SuffixIsLongest(x, y, SameToken, 1);
    PrefixIsUnique(a, [CRLF], SameToken, 0);
    assert a[0..] == a && [CRLF][0..] == [CRLF];
    assert !SameToken(FromEnd(a, 0), FromEnd([CRLF], 0));
    SuffixIsLongest(a, [CRLF], SameToken, 0);
  }

  lemma {:induction false} FirstPass(image: Part)
    requires image.ImageRef?
    ensures Unscaffolded([CR, image, LF], [CR, CRLF, LF]) == Some(Snapshot([CRLF], 1))
  {
    FirstGap(image);
    var a, b := [CR, image, LF], [CR, CRLF, LF];
    assert a[1..2] == [image] && IsReference([image][0]);
    assert b[1..2] == [CRLF];
    assert KeptTokens(a, b) == [CR, LF];
    JoinedParts();
  }

  lemma {:induction false} JoinedParts()
    ensures PartsFromTokens([CR, LF]) == [CRLF]
  {
    assert [CR, LF][..1] == [CR] && [CR][..0] == [];
    assert AddTokens([], []) == [];
    assert AddTokens([], [CR]) == [CR];
    assert CR.text + LF.text == CRLF.text;
  }

  lemma {:induction false} SecondPass(image: Part)
    requires image.ImageRef?
    ensures Unscaffolded([CR, image, LF], [CRLF]) == Some(Snapshot([], 0))
  {
    FirstGap(image);
    var a := [CR, image, LF];
    assert a[0..3] == a && IsReference(a[1]);
    assert [CRLF][0..1] == [CRLF];
    assert KeptTokens(a, [CRLF]) == [];
  }

  lemma {:induction false} TokensOfThreeParts(image: Part)
    requires image.ImageRef?
    ensures Tokens([CR, image, LF], LineEndPieces) == [CR, image, LF]
  {
    PiecesOfLineEnds();
    TokensOfThree(CR, image, LF, LineEndPieces);
    NormalTokens([CR, image, LF], LineEndPieces);
  }

  lemma {:induction false} TokensOfText(text: string, tokens: seq<Part>)
    requires text != "" && CARET !in text && TextTokens(LineEndPieces(text)) == tokens
    ensures Tokens([Text(text)], LineEndPieces) == tokens
  {
    TokensOfSingle(Text(text), LineEndPieces);
    NormalTokens([Text(text)], LineEndPieces);
  }

  /** Where the clean-up is not idempotent: an image stood between `\r` and `\n`, the browser
      put `\r\n` in its place. Taking that out joins the two characters into one line break
      that the content never had, and a second clean-up takes that out as well. */
  lemma {:induction false} JoinedLineEndIsLost(caret: int)
    ensures CutsAtLineEnds(LineEndPieces)
    ensures var before := Snapshot([CR, ImageRef(0), LF], 1);
            var after := Snapshot([Text("\r\r\n\n")], caret);
            var once := CleanUp(before, after, LineEndPieces);
            once == Snapshot([CRLF], 1) && CleanUp(before, once, LineEndPieces) == Snapshot([], 0)
  {
    LineEndPiecesCut();
    var before := Snapshot([CR, ImageRef(0), LF], 1);
    PiecesOfLineEnds();
    TokensOfThreeParts(ImageRef(0));
    TokensOfText("\r\r\n\n", [CR, CRLF, LF]);
    TokensOfText("\r\n", [CRLF]);
    CleanUpByTokens(before, Snapshot([Text("\r\r\n\n")], caret), LineEndPieces);
    CleanUpByTokens(before, Snapshot([CRLF], 1), LineEndPieces);
    FirstPass(ImageRef(0));
    SecondPass(ImageRef(0));
  }
}
