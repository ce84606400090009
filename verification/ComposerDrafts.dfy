/** Drafts: finding the attachment references in a draft that was stored as text only, and
    keeping the references of a draft in line with its sources. */
module ComposerDrafts {
  import opened Prelude
  import opened Strings
  import opened Composer

  /** A context source; its extension, kind and size play no part here. */
  datatype Source = Source(path: string, name: string)

  function Marker(name: string): string {
    "[" + name + "]"
  }

  lemma {:induction false} MarkersDiffer(a: string, b: string)
    requires Marker(a) == Marker(b)
    ensures a == b
  {
    assert a == Marker(a)[1..|a| + 1];
    assert b == Marker(b)[1..|b| + 1];
  }

  // ------------------------------------------------------------ references

  /** The source is the only one, by path, that its marker can stand for. */
  ghost predicate Unambiguous(sources: seq<Source>, s: Source) {
    s.name != "" && s in sources && forall other <- sources | other.name == s.name :: other.path == s.path
  }

  ghost predicate DistinctNames(refs: seq<Source>) {
    forall i, j | 0 <= i < j < |refs| :: refs[i].name != refs[j].name
  }

  ghost predicate Lists(refs: seq<Source>, sources: seq<Source>) {
    DistinctNames(refs) && forall s :: s in refs <==> Unambiguous(sources, s)
  }

  /** What the map from markers to references holds when `seen` has been gone through. */
  ghost predicate Gathered(byMarker: map<string, seq<Source>>, seen: seq<Source>) {
    && (forall s <- seen | s.name != "" :: Marker(s.name) in byMarker)
    && (forall m <- byMarker :: byMarker[m] != [] && Distinct(byMarker[m]))
    && (forall m <- byMarker, s :: s in byMarker[m] <==> s.name != "" && Marker(s.name) == m && s in seen)
  }

  lemma {:induction false} GatherStep(
      byMarker: map<string, seq<Source>>, seen: seq<Source>, s: Source, refs: seq<Source>)
    requires Gathered(byMarker, seen) && s.name != ""
    requires var was := if Marker(s.name) in byMarker then byMarker[Marker(s.name)] else [];
             refs == if s in was then was else was + [s]
    ensures Gathered(byMarker[Marker(s.name) := refs], seen + [s])
  {
    var m := Marker(s.name);
    var next := byMarker[m := refs];
    forall x: Source ensures x in refs <==> x.name != "" && Marker(x.name) == m && x in seen + [s] {
      assert x in seen && x.name != "" ==> Marker(x.name) in byMarker;
    }
    forall k <- next, x: Source ensures x in next[k] <==> x.name != "" && Marker(x.name) == k && x in seen + [s] {
      if k != m { assert k in byMarker; }
    }
  }

  lemma {:induction false} SamePathIsMember(refs: seq<Source>, s: Source)
    requires forall r <- refs :: Marker(r.name) == Marker(s.name)
    ensures s in refs <==> exists k | 0 <= k < |refs| :: refs[k].path == s.path
  {
    if k :| 0 <= k < |refs| && refs[k].path == s.path {
      MarkersDiffer(refs[k].name, s.name);
      assert refs[k] == s;
    }
  }

  /** A marker with one reference is a marker with one possible meaning. */
  lemma {:induction false} OneReference(byMarker: map<string, seq<Source>>, sources: seq<Source>, m: string)
    requires Gathered(byMarker, sources) && m in byMarker
    ensures |byMarker[m]| == 1 ==> Unambiguous(sources, byMarker[m][0]) && Marker(byMarker[m][0].name) == m
    ensures forall s | Unambiguous(sources, s) && Marker(s.name) == m :: byMarker[m] == [s]
  {
    var refs := byMarker[m];
    assert refs[0] in refs;
    if |refs| == 1 {
      forall other <- sources | other.name == refs[0].name ensures other.path == refs[0].path {
        assert other in refs;
      }
    }
    forall s | Unambiguous(sources, s) && Marker(s.name) == m ensures refs == [s] {
      assert |refs| == 1 || refs[0] != refs[|refs| - 1];
      forall k | 0 <= k < |refs| ensures refs[k] == s {
        assert refs[k] in refs;
        MarkersDiffer(refs[k].name, s.name);
      }
    }
  }

  /** The keys of the map in the order in which they were put in. */
  ghost predicate OrderOf(order: seq<string>, byMarker: map<string, seq<Source>>) {
    Distinct(order) && forall m :: m in order <==> m in byMarker
  }

  method GatherReferences(sources: seq<Source>) returns (byMarker: map<string, seq<Source>>, order: seq<string>)
    ensures Gathered(byMarker, sources) && OrderOf(order, byMarker)
  {
    byMarker := map[];
    order := [];
    for i := 0 to |sources|
      invariant Gathered(byMarker, sources[..i])
      invariant OrderOf(order, byMarker)
    {
      var source := sources[i];
      assert sources[..i + 1] == sources[..i] + [source];
      if source.name == "" { continue; }
      var marker := Marker(source.name);
      var references := if marker in byMarker then byMarker[marker] else [];
      SamePathIsMember(references, source);
      if !exists k | 0 <= k < |references| :: references[k].path == source.path {
        references := references + [source];
      }
      GatherStep(byMarker, sources[..i], source, references);
      if marker !in byMarker { order := order + [marker]; }
      byMarker := byMarker[marker := references];
    }
    assert sources[..|sources|] == sources;
  }

  method UnambiguousReferences(sources: seq<Source>) returns (refs: seq<Source>)
    ensures Lists(refs, sources)
  {
    var byMarker, order := GatherReferences(sources);
    refs := [];
    for i := 0 to |order|
      invariant forall s :: s in refs <==> Unambiguous(sources, s) && Marker(s.name) in order[..i]
      invariant DistinctNames(refs)
    {
      assert order[i] in order;
      assert order[..i + 1] == order[..i] + [order[i]];
      OneReference(byMarker, sources, order[i]);
      if |byMarker[order[i]]| == 1 {
        refs := refs + byMarker[order[i]];
      }
    }
    assert order[..|order|] == order;
  }

  // ------------------------------------------------------------- matching

  datatype Match = Match(index: nat, source: Source)

  function Better(text: string, best: Option<Match>, ref: Source): Option<Match> {
    var index := IndexOf(text, Marker(ref.name), 0);
    if index.Some? && (best.None? || index.value < best.value.index ||
                       (index.value == best.value.index && |Marker(ref.name)| > |Marker(best.value.source.name)|))
    then Some(Match(index.value, ref)) else best
  }

  function Next(text: string, refs: seq<Source>): Option<Match> {
    if refs == [] then None else Better(text, Next(text, refs[..|refs| - 1]), refs[|refs| - 1])
  }

  /** The match begins no later than any marker in the text, and is the longest of those
      that begin there. */
  ghost predicate Best(text: string, refs: seq<Source>, m: Match) {
    && m.source in refs && OccursAt(text, Marker(m.source.name), m.index)
    && forall r <- refs, j: nat | OccursAt(text, Marker(r.name), j) ::
         m.index < j || (m.index == j && |Marker(r.name)| <= |Marker(m.source.name)|)
  }

  lemma {:induction false} NextIsBest(text: string, refs: seq<Source>)
    ensures var m := Next(text, refs);
            if m.Some? then Best(text, refs, m.value)
            else forall r <- refs, j: nat :: !OccursAt(text, Marker(r.name), j)
  {
    if refs != [] {
      NextIsBest(text, refs[..|refs| - 1]);
      assert refs == refs[..|refs| - 1] + [refs[|refs| - 1]];
    }
  }

  lemma {:induction false} BestIsUnique(text: string, refs: seq<Source>, a: Match, b: Match)
    requires DistinctNames(refs) && Best(text, refs, a) && Best(text, refs, b)
    ensures a == b
  {
    assert a.index == b.index;
    assert |Marker(a.source.name)| == |Marker(b.source.name)|;
    MarkersDiffer(a.source.name, b.source.name);
    var i :| 0 <= i < |refs| && refs[i] == a.source;
    var j :| 0 <= j < |refs| && refs[j] == b.source;
    assert i == j;
  }

  /** The outcome of the search does not depend on the order of the references. */
  lemma {:induction false} NextByMembers(text: string, refs: seq<Source>, other: seq<Source>)
    requires DistinctNames(refs) && forall s :: s in refs <==> s in other
    ensures Next(text, refs) == Next(text, other)
  {
    NextIsBest(text, refs);
    NextIsBest(text, other);
    var m, n := Next(text, refs), Next(text, other);
    if m.Some? { assert m.value.source in other; }
    if n.Some? { assert n.value.source in refs; }
    if m.Some? && n.Some? { BestIsUnique(text, refs, m.value, n.value); }
  }

  lemma {:induction false} NextFits(text: string, refs: seq<Source>)
    requires Next(text, refs).Some?
    ensures var m := Next(text, refs).value; m.index + |Marker(m.source.name)| <= |text|
  {
    NextIsBest(text, refs);
  }

  function NextEnd(text: string, m: Match): nat {
    m.index + |Marker(m.source.name)|
  }

  /** The parts of a text, read from its beginning. */
  function Parse(text: string, refs: seq<Source>): seq<Part>
    decreases |text|
  {
    if text == "" then []
    else
      var next := Next(text, refs);
      if next.None? then [Text(text)]
      else
        var m := next.value;
        NextFits(text, refs);
        (if m.index > 0 then [Text(text[..m.index])] else [])
        + [AttachmentRef(m.source.path, m.source.name)] + Parse(text[NextEnd(text, m)..], refs)
  }

  lemma {:induction false} ParseByMembers(text: string, refs: seq<Source>, other: seq<Source>)
    requires DistinctNames(refs) && forall s :: s in refs <==> s in other
    ensures Parse(text, refs) == Parse(text, other)
    decreases |text|
  {
    NextByMembers(text, refs, other);
    if text != "" && Next(text, refs).Some? {
      NextFits(text, refs);
      ParseByMembers(text[NextEnd(text, Next(text, refs).value)..], refs, other);
    }
  }

  lemma {:induction false} ParseStep(text: string, refs: seq<Source>)
    requires text != ""
    ensures var next := Next(text, refs);
            if next.None? then Parse(text, refs) == [Text(text)]
            else
              && 0 < NextEnd(text, next.value) <= |text|
              && Parse(text, refs) ==
                 (if next.value.index > 0 then [Text(text[..next.value.index])] else [])
                 + [AttachmentRef(next.value.source.path, next.value.source.name)]
                 + Parse(text[NextEnd(text, next.value)..], refs)
  {
    if Next(text, refs).Some? { NextFits(text, refs); }
  }

  method FindNext(text: string, cursor: nat, refs: seq<Source>) returns (next: Option<Match>)
    requires cursor <= |text|
    ensures next == Next(text[cursor..], refs)
  {
    next := None;
    for i := 0 to |refs|
      invariant next == Next(text[cursor..], refs[..i])
    {
      assert refs[..i + 1][..i] == refs[..i];
      var index := IndexOf(text[cursor..], Marker(refs[i].name), 0);
      if index.Some? && (next.None? || index.value < next.value.index ||
                         (index.value == next.value.index
                           && |Marker(refs[i].name)| > |Marker(next.value.source.name)|)) {
        next := Some(Match(index.value, refs[i]));
      }
    }
    assert refs[..|refs|] == refs;
  }

  /** The cursor loop; it ends because every marker has two characters at least. */
  method ComposerDraftContentPartsFromLegacyText(text: string, sources: seq<Source>) returns (parts: seq<Part>)
    ensures forall refs | Lists(refs, sources) :: parts == Parse(text, refs)
    ensures exists refs :: Lists(refs, sources)
  {
    var refs := UnambiguousReferences(sources);
    forall other | Lists(other, sources) ensures Parse(text, other) == Parse(text, refs) {
      ParseByMembers(text, refs, other);
    }
    if text == "" { return []; }
    if refs == [] {
      ParseStep(text, refs);
      return [Text(text)];
    }
    parts := [];
    var cursor := 0;
    while cursor < |text|
      invariant 0 <= cursor <= |text|
      invariant parts + Parse(text[cursor..], refs) == Parse(text, refs)
    {
      ghost var rest := text[cursor..];
      ghost var sofar := parts;
      var next := FindNext(text, cursor, refs);
      ParseStep(rest, refs);
      if next.None? {
        parts := parts + [Text(text[cursor..])];
        return;
      }
      var index := cursor + next.value.index;
      ghost var before := if next.value.index > 0 then [Text(rest[..next.value.index])] else [];
      if index > cursor {
        assert text[cursor..index] == rest[..next.value.index];
        parts := parts + [Text(text[cursor..index])];
      }
      assert parts == sofar + before;
      var ref := AttachmentRef(next.value.source.path, next.value.source.name);
      parts := parts + [ref];
      cursor := index + |Marker(next.value.source.name)|;
      assert rest[NextEnd(rest, next.value)..] == text[cursor..];
      Regroup(sofar, before, [ref], Parse(text[cursor..], refs));
    }
    assert text[cursor..] == "";
    assert parts + [] == parts;
  }

  // ------------------------------------------------------------ rendering

  function Shown(part: Part): string {
    match part
    case Text(text) => text
    case AttachmentRef(_, name) => Marker(name)
    case ImageRef(_) => ""
  }

  function ShownAll(parts: seq<Part>): string {
    if parts == [] then "" else ShownAll(parts[..|parts| - 1]) + Shown(parts[|parts| - 1])
  }

  function VisibleText(parts: seq<Part>): string {
    ShownAll(NormalizeParts(parts))
  }

  /** The part as it is shown once its caret markers are gone. */
  function ShownClean(part: Part): string {
    if part.Text? then StripCaret(part.text) else Shown(part)
  }

  function ShownCleanAll(parts: seq<Part>): string {
    if parts == [] then "" else ShownCleanAll(parts[..|parts| - 1]) + ShownClean(parts[|parts| - 1])
  }

  lemma {:induction false} ShownAdd(parts: seq<Part>, token: Part)
    ensures ShownAll(AddToken(parts, token)) == ShownAll(parts) + Shown(token)
  {
    var last := |parts| - 1;
    if token.Text? && parts != [] && parts[last].Text? {
      var joined := parts[..last] + [Text(parts[last].text + token.text)];
      assert joined[..last] == parts[..last];
      Regroup3(ShownAll(parts[..last]), parts[last].text, token.text);
    } else {
      assert (parts + [token])[..|parts|] == parts;
    }
  }

  /** Normalising changes the shown text by the caret markers in text, and by nothing else. */
  lemma {:induction false} VisibleTextIsClean(parts: seq<Part>)
    ensures VisibleText(parts) == ShownCleanAll(parts)
  {
    if parts != [] {
      var init, last := parts[..|parts| - 1], parts[|parts| - 1];
      VisibleTextIsClean(init);
      if !last.Text? {
        ShownAdd(NormalizeParts(init), last);
      } else if StripCaret(last.text) != "" {
        ShownAdd(NormalizeParts(init), Text(StripCaret(last.text)));
      } else {
        assert ShownCleanAll(init) + "" == ShownCleanAll(init);
      }
    }
  }

  ghost predicate NoCaretInText(parts: seq<Part>) {
    forall i | 0 <= i < |parts| && parts[i].Text? :: CARET !in parts[i].text
  }

  lemma {:induction false} CleanPart(part: Part)
    ensures |ShownClean(part)| <= |Shown(part)|
    ensures if part.Text?
            && CARET in part.text then |ShownClean(part)| < |Shown(part)| else ShownClean(part) == Shown(part)
  {
    if part.Text? { StripRemoves(part.text); }
  }

  lemma {:induction false} CleanIsShorter(parts: seq<Part>)
    ensures if NoCaretInText(parts) then ShownCleanAll(parts) == ShownAll(parts)
            else |ShownCleanAll(parts)| < |ShownAll(parts)|
  {
    if parts != [] {
      var init, last := parts[..|parts| - 1], parts[|parts| - 1];
      CleanIsShorter(init);
      CleanPart(last);
      NoCaretSplits(parts, init, last);
      BothShorter(NoCaretInText(init), ShownCleanAll(init), ShownAll(init),
        !(last.Text? && CARET in last.text), ShownClean(last), Shown(last));
    }
  }

  lemma {:induction false} NoCaretSplits(parts: seq<Part>, init: seq<Part>, last: Part)
    requires parts == init + [last]
    ensures NoCaretInText(parts) <==> NoCaretInText(init) && !(last.Text? && CARET in last.text)
  {
    if NoCaretInText(parts) {
      assert parts[|init|] == last;
      forall i | 0 <= i < |init| && init[i].Text? ensures CARET !in init[i].text { assert parts[i] == init[i]; }
    }
  }

  lemma {:induction false} BothShorter(p: bool, a: string, b: string, q: bool, c: string, d: string)
    requires if p then a == b else |a| < |b|
    requires if q then c == d else |c| < |d|
    ensures if p && q then a + c == b + d else |a + c| < |b + d|
  {
  }

  lemma {:induction false} ShownPlus(a: seq<Part>, b: seq<Part>)
    ensures ShownAll(a + b) == ShownAll(a) + ShownAll(b)
    decreases |b|
  {
    if b == [] {
      assert a + b == a;
    } else {
      assert (a + b)[..|a + b| - 1] == a + b[..|b| - 1];
      ShownPlus(a, b[..|b| - 1]);
      Regroup3(ShownAll(a), ShownAll(b[..|b| - 1]), Shown(b[|b| - 1]));
    }
  }

  lemma {:induction false} ShownOne(part: Part)
    ensures ShownAll([part]) == Shown(part)
  {
    assert [part][..0] == [] && ShownAll([]) == "";
  }

  lemma {:induction false} ShownMatch(before: string, ref: Part, rest: seq<Part>)
    ensures ShownAll((if before != "" then [Text(before)]
            else []) + [ref] + rest) == before + Shown(ref) + ShownAll(rest)
  {
    var head := if before != "" then [Text(before)] else [];
    ShownPlus(head + [ref], rest);
    ShownPlus(head, [ref]);
    ShownOne(ref);
    ShownOne(Text(before));
    assert ShownAll([]) == "";
  }

  lemma {:induction false} ParseShows(text: string, refs: seq<Source>)
    ensures ShownAll(Parse(text, refs)) == text
    decreases |text|
  {
    if text != "" {
      ParseStep(text, refs);
      var next := Next(text, refs);
      if next.None? {
        ShownOne(Text(text));
      } else {
        var m, end := next.value, NextEnd(text, next.value);
        NextIsBest(text, refs);
        ParseShows(text[end..], refs);
        ShownMatch(text[..m.index], AttachmentRef(m.source.path, m.source.name), Parse(text[end..], refs));
        CutInThree(text, m.index, end);
      }
    }
  }

  lemma {:induction false} CutInThree(text: string, i: nat, j: nat)
    requires i <= j <= |text|
    ensures text == text[..i] + text[i..j] + text[j..]
  {
  }

  /** A draft text is shown again as it was stored exactly when no caret marker is left in
      what was read as text. */
  lemma {:induction false} LegacyTextIsShownAgain(text: string, refs: seq<Source>)
    ensures VisibleText(Parse(text, refs)) == text <==> NoCaretInText(Parse(text, refs))
    ensures CARET !in text ==> NoCaretInText(Parse(text, refs))
  {
    var parts := Parse(text, refs);
    ParseShows(text, refs);
    VisibleTextIsClean(parts);
    CleanIsShorter(parts);
    forall i | 0 <= i < |parts| && parts[i].Text? && CARET in parts[i].text ensures CARET in text {
      ShownMember(parts, i, CARET);
    }
  }

  lemma {:induction false} ShownMember(parts: seq<Part>, i: nat, c: char)
    requires i < |parts| && c in Shown(parts[i])
    ensures c in ShownAll(parts)
  {
    if i < |parts| - 1 { ShownMember(parts[..|parts| - 1], i, c); }
  }

  /** No part is empty and no two texts are side by side. */
  ghost predicate Separated(parts: seq<Part>) {
    && (forall i | 0 <= i < |parts| && parts[i].Text? :: parts[i].text != "")
    && (forall i | 0 < i < |parts| :: !(parts[i - 1].Text? && parts[i].Text?))
  }

  lemma {:induction false} ParseSeparates(text: string, refs: seq<Source>)
    ensures Separated(Parse(text, refs))
    decreases |text|
  {
    if text != "" {
      ParseStep(text, refs);
      var next := Next(text, refs);
      if next.Some? { ParseSeparates(text[NextEnd(text, next.value)..], refs); }
    }
  }

  /** Every reference read stands for a source, and no text holds a marker that was missed. */
  ghost predicate ReadsAll(parts: seq<Part>, refs: seq<Source>) {
    && (forall i | 0 <= i < |parts| && !parts[i].Text? ::
          parts[i].AttachmentRef? && Source(parts[i].path, parts[i].name) in refs)
    && (forall i, r, j: nat | 0 <= i < |parts| && parts[i].Text? && r in refs ::
          !OccursAt(parts[i].text, Marker(r.name), j))
  }

  lemma {:induction false} OccursInPrefix(text: string, n: nat, marker: string, j: nat)
    requires n <= |text| && OccursAt(text[..n], marker, j)
    ensures OccursAt(text, marker, j)
  {
    assert text[..n][j..j + |marker|] == text[j..j + |marker|];
  }

  lemma {:induction false} ReadsAllPlus(a: seq<Part>, b: seq<Part>, refs: seq<Source>)
    requires ReadsAll(a, refs) && ReadsAll(b, refs)
    ensures ReadsAll(a + b, refs)
  {
  }

  lemma {:induction false} TextBeforeMatch(text: string, refs: seq<Source>, m: Match)
    requires Best(text, refs, m)
    ensures ReadsAll([Text(text[..m.index])], refs)
  {
    forall r, j: nat | r in refs && OccursAt(text[..m.index], Marker(r.name), j) ensures false {
      OccursInPrefix(text, m.index, Marker(r.name), j);
    }
  }

  lemma {:induction false} ParseReadsAll(text: string, refs: seq<Source>)
    ensures ReadsAll(Parse(text, refs), refs)
    decreases |text|
  {
    if text != "" {
      ParseStep(text, refs);
      NextIsBest(text, refs);
      var next := Next(text, refs);
      if next.Some? {
        var m := next.value;
        TextBeforeMatch(text, refs, m);
        var before := if m.index > 0 then [Text(text[..m.index])] else [];
        var ref := AttachmentRef(m.source.path, m.source.name);
        assert Source(ref.path, ref.name) == m.source;
        ParseReadsAll(text[NextEnd(text, m)..], refs);
        ReadsAllPlus(before, [ref], refs);
        ReadsAllPlus(before + [ref], Parse(text[NextEnd(text, m)..], refs), refs);
      }
    }
  }

  // --------------------------------------------------------- source filter

  predicate Active(part: Part, keys: set<string>, key: string -> string) {
    part.AttachmentRef? ==> key(part.path) in keys
  }

  function KeepActive(parts: seq<Part>, keys: set<string>, key: string -> string): seq<Part> {
    if parts == [] then []
    else KeepActive(parts[..|parts| - 1], keys, key)
         + if Active(parts[|parts| - 1], keys, key) then [parts[|parts| - 1]] else []
  }

  function SourceKeys(sources: seq<Source>, key: string -> string): set<string> {
    set i | 0 <= i < |sources| :: key(sources[i].path)
  }

  function FilterAttachmentReferences(parts: seq<Part>, sources: seq<Source>, key: string -> string): seq<Part> {
    KeepActive(NormalizeParts(parts), SourceKeys(sources, key), key)
  }

  function Durable(parts: seq<Part>): seq<Part> {
    if parts == [] then []
    else Durable(parts[..|parts| - 1]) + if parts[|parts| - 1].ImageRef? then [] else [parts[|parts| - 1]]
  }

  /** `key` is the path comparison of the platform, `workspaceRootKey`. */
  function NormalizeDraft(parts: seq<Part>, sources: seq<Source>, key: string -> string): seq<Part> {
    FilterAttachmentReferences(NormalizeParts(Durable(parts)), sources, key)
  }

  ghost predicate AllActive(parts: seq<Part>, keys: set<string>, key: string -> string) {
    forall i | 0 <= i < |parts| :: Active(parts[i], keys, key)
  }

  lemma {:induction false} ActiveAreKept(parts: seq<Part>, keys: set<string>, key: string -> string)
    requires AllActive(parts, keys, key)
    ensures KeepActive(parts, keys, key) == parts
  {
    if parts != [] {
      var init, last := parts[..|parts| - 1], parts[|parts| - 1];
      assert Active(last, keys, key) && AllActive(init, keys, key);
      ActiveAreKept(init, keys, key);
      assert parts == init + [last];
    }
  }

  /** What passes the filter stands for a source. */
  lemma {:induction false} KeptAreActive(parts: seq<Part>, keys: set<string>, key: string -> string)
    ensures AllActive(KeepActive(parts, keys, key), keys, key)
    ensures Subsequence(KeepActive(parts, keys, key), parts)
  {
    if parts != [] {
      var init, last := parts[..|parts| - 1], parts[|parts| - 1];
      KeptAreActive(init, keys, key);
      SubsequenceSnoc(KeepActive(init, keys, key), init, last);
      assert parts == init + [last];
      assert KeepActive(init, keys, key) + [] == KeepActive(init, keys, key);
    }
  }

  lemma {:induction false} DurableIsAll(parts: seq<Part>)
    requires forall i | 0 <= i < |parts| :: !parts[i].ImageRef?
    ensures Durable(parts) == parts
  {
    if parts != [] { DurableIsAll(parts[..|parts| - 1]); }
  }

  lemma {:induction false} NormalizeKeepsActive(parts: seq<Part>, keys: set<string>, key: string -> string)
    requires AllActive(parts, keys, key)
    ensures AllActive(NormalizeParts(parts), keys, key)
  {
    if parts != [] { NormalizeKeepsActive(parts[..|parts| - 1], keys, key); }
  }

  lemma {:induction false} ParsedAreActive(text: string, refs: seq<Source>, sources: seq<Source>, key: string -> string)
    requires forall s <- refs :: s in sources
    ensures AllActive(Parse(text, refs), SourceKeys(sources, key), key)
  {
    ParseReadsAll(text, refs);
    var parts := Parse(text, refs);
    forall i | 0 <= i < |parts| && parts[i].AttachmentRef? ensures key(parts[i].path) in SourceKeys(sources, key) {
      var s := Source(parts[i].path, parts[i].name);
      assert s in refs;
      var k :| 0 <= k < |sources| && sources[k] == s;
    }
  }

  /** Every reference read from a draft text passes the filter by the draft's own sources,
      for every way of comparing paths; without caret markers nothing changes at all. */
  lemma {:induction false} ParsedReferencesSurvive(
      text: string, refs: seq<Source>, sources: seq<Source>, key: string -> string)
    requires Lists(refs, sources)
    ensures NormalizeDraft(Parse(text, refs), sources, key) == NormalizeParts(Parse(text, refs))
    ensures NoCaretInText(Parse(text, refs)) ==> NormalizeDraft(Parse(text, refs), sources, key) == Parse(text, refs)
  {
    var parts := Parse(text, refs);
    ParseReadsAll(text, refs);
    DurableIsAll(parts);
    NormalizeTwice(parts);
    ParsedAreActive(text, refs, sources, key);
    NormalizeKeepsActive(parts, SourceKeys(sources, key), key);
    ActiveAreKept(NormalizeParts(parts), SourceKeys(sources, key), key);
    ParseSeparates(text, refs);
    if NoCaretInText(parts) { NormalIsKept(parts); }
  }

  // ------------------------------------------------ reading what was shown

  /** Parts that cannot be misread: brackets only where a reference is shown. */
  ghost predicate Readable(parts: seq<Part>, refs: seq<Source>) {
    && Separated(parts)
    && (forall i | 0 <= i < |parts| ::
          if parts[i].Text? then '[' !in parts[i].text
          else parts[i].AttachmentRef? && Source(parts[i].path, parts[i].name) in refs)
    && (forall r <- refs :: '[' !in r.name && ']' !in r.name)
  }

  lemma {:induction false} MarkerStarts(text: string, marker: string, j: nat)
    requires marker != "" && OccursAt(text, marker, j)
    ensures text[j] == marker[0]
  {
    assert text[j..j + |marker|][0] == text[j];
  }

  lemma {:induction false} NameAt(text: string, a: string, i: nat)
    requires ']' !in a && OccursAt(text, Marker(a), i)
    ensures i + 1 + |a| < |text| && text[i + 1 + |a|] == ']' && text[i + 1..i + 1 + |a|] == a
    ensures forall k | i + 1 <= k < i + 1 + |a| :: text[k] != ']'
  {
    var x := Marker(a);
    forall k | 0 <= k < |x| ensures text[i + k] == x[k] { assert text[i..i + |x|][k] == x[k]; }
    forall k | i + 1 <= k < i + 1 + |a| ensures text[k] == a[k - i - 1] { assert text[i + (k - i)] == x[k - i]; }
  }

  lemma {:induction false} SameNameAtBracket(text: string, a: string, b: string, i: nat)
    requires ']' !in a && ']' !in b
    requires OccursAt(text, Marker(a), i) && OccursAt(text, Marker(b), i)
    ensures a == b
  {
    NameAt(text, a, i);
    NameAt(text, b, i);
  }

  lemma {:induction false} NextAfterText(before: string, s: Source, rest: string, refs: seq<Source>)
    requires DistinctNames(refs) && s in refs && '[' !in before
    requires forall r <- refs :: '[' !in r.name && ']' !in r.name
    ensures Next(before + Marker(s.name) + rest, refs) == Some(Match(|before|, s))
  {
    var text := before + Marker(s.name) + rest;
    var m := Match(|before|, s);
    assert OccursAt(text, Marker(s.name), |before|);
    assert forall k | 0 <= k < |before| :: text[k] == before[k];
    forall r, j: nat | r in refs && OccursAt(text, Marker(r.name), j)
      ensures m.index < j || (m.index == j && |Marker(r.name)| <= |Marker(s.name)|)
    {
      MarkerStarts(text, Marker(r.name), j);
      if j == |before| { SameNameAtBracket(text, r.name, s.name, j); }
    }
    NextIsBest(text, refs);
    BestIsUnique(text, refs, Next(text, refs).value, m);
  }

  lemma {:induction false} NextInText(text: string, refs: seq<Source>)
    requires '[' !in text
    ensures Next(text, refs).None?
  {
    NextIsBest(text, refs);
    var next := Next(text, refs);
    if next.Some? { MarkerStarts(text, Marker(next.value.source.name), next.value.index); }
  }

  lemma {:induction false} ParseMatch(before: string, s: Source, rest: string, refs: seq<Source>)
    requires DistinctNames(refs) && s in refs && '[' !in before
    requires forall r <- refs :: '[' !in r.name && ']' !in r.name
    ensures Parse(before + Marker(s.name) + rest, refs) ==
            (if before == "" then [] else [Text(before)]) + [AttachmentRef(s.path, s.name)] + Parse(rest, refs)
  {
    var text := before + Marker(s.name) + rest;
    NextAfterText(before, s, rest, refs);
    ParseStep(text, refs);
    assert text[..|before|] == before;
    assert text[|before| + |Marker(s.name)|..] == rest;
  }

  lemma {:induction false} ReadableTail(parts: seq<Part>, refs: seq<Source>, n: nat)
    requires Readable(parts, refs) && n <= |parts|
    ensures Readable(parts[n..], refs)
  {
  }

  lemma {:induction false} ShownFirst(parts: seq<Part>)
    requires parts != []
    ensures ShownAll(parts) == Shown(parts[0]) + ShownAll(parts[1..])
  {
    assert parts == [parts[0]] + parts[1..];
    ShownPlus([parts[0]], parts[1..]);
    ShownOne(parts[0]);
  }

  lemma {:induction false} ShownTwo(parts: seq<Part>)
    requires |parts| > 1
    ensures ShownAll(parts) == Shown(parts[0]) + Shown(parts[1]) + ShownAll(parts[2..])
  {
    ShownFirst(parts);
    ShownFirst(parts[1..]);
    assert parts[1..][1..] == parts[2..];
    Regroup3(Shown(parts[0]), Shown(parts[1]), ShownAll(parts[2..]));
  }

  lemma {:induction false} ReadBackReference(parts: seq<Part>, refs: seq<Source>)
    requires DistinctNames(refs) && Readable(parts, refs) && parts != [] && !parts[0].Text?
    requires Parse(ShownAll(parts[1..]), refs) == parts[1..]
    ensures Parse(ShownAll(parts), refs) == parts
  {
    var first := parts[0];
    ShownFirst(parts);
    ParseMarker(Source(first.path, first.name), ShownAll(parts[1..]), refs);
  }

  lemma {:induction false} ParseMarker(s: Source, rest: string, refs: seq<Source>)
    requires DistinctNames(refs) && s in refs && forall r <- refs :: '[' !in r.name && ']' !in r.name
    ensures Parse(Marker(s.name) + rest, refs) == [AttachmentRef(s.path, s.name)] + Parse(rest, refs)
  {
    ParseMatch("", s, rest, refs);
    assert "" + Marker(s.name) == Marker(s.name);
    assert [] + [AttachmentRef(s.path, s.name)] == [AttachmentRef(s.path, s.name)];
  }

  lemma {:induction false} ReadBackTextAndReference(parts: seq<Part>, refs: seq<Source>)
    requires DistinctNames(refs) && Readable(parts, refs) && |parts| > 1 && parts[0].Text?
    requires Parse(ShownAll(parts[2..]), refs) == parts[2..]
    ensures Parse(ShownAll(parts), refs) == parts
  {
    var first, second := parts[0], parts[1];
    assert !second.Text?;
    ShownTwo(parts);
    ParseMatch(first.text, Source(second.path, second.name), ShownAll(parts[2..]), refs);
    assert parts == [first] + [second] + parts[2..];
  }

  lemma {:induction false} ReadBackText(part: Part, refs: seq<Source>)
    requires Readable([part], refs) && part.Text?
    ensures Parse(ShownAll([part]), refs) == [part]
  {
    assert '[' !in [part][0].text;
    ShownOne(part);
    NextInText(part.text, refs);
    ParseStep(part.text, refs);
  }

  /** The parser undoes the renderer: parts without stray brackets are read back as they
      were, path and name and the places of the texts between. */
  lemma {:induction false} ShownPartsAreReadBack(parts: seq<Part>, refs: seq<Source>)
    requires DistinctNames(refs) && Readable(parts, refs)
    ensures Parse(ShownAll(parts), refs) == parts
  {
    if parts != [] {
      if !parts[0].Text? {
        ReadableTail(parts, refs, 1);
        ShownPartsAreReadBack(parts[1..], refs);
        ReadBackReference(parts, refs);
      } else if |parts| == 1 {
        assert parts == [parts[0]];
        ReadBackText(parts[0], refs);
      } else {
        ReadableTail(parts, refs, 2);
        ShownPartsAreReadBack(parts[2..], refs);
        ReadBackTextAndReference(parts, refs);
      }
    }
  }
}
