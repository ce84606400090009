/** Small definitions shared by every component: an optional value, which stands for
    `T | null`, and a few facts about sequences. */
module Prelude {

  datatype Option<+T> = None | Some(value: T) {
    /** The `a ?? b` of the program for an optional fallback. */
    function OrElse(other: Option<T>): Option<T> {
      if Some? then this else other
    }
  }

  function Min(a: int, b: int): int {
    if a < b then a else b
  }

  function Max(a: int, b: int): int {
    if a < b then b else a
  }

  /** `values.join("")`. */
  function Concat<T>(pieces: seq<seq<T>>): seq<T> {
    if pieces == [] then [] else pieces[0] + Concat(pieces[1..])
  }

  lemma {:induction false} ConcatAppend<T>(left: seq<seq<T>>, right: seq<seq<T>>)
    ensures Concat(left + right) == Concat(left) + Concat(right)
  {
    if left == [] {
      assert left + right == right;
    } else {
      assert (left + right)[1..] == left[1..] + right;
      ConcatAppend(left[1..], right);
    }
  }

  lemma {:induction false} ConcatOne<T>(piece: seq<T>)
    ensures Concat([piece]) == piece
  {
    assert Concat([piece]) == piece + Concat<T>([]);
  }

  lemma {:induction false} Regroup<T>(a: seq<T>, b: seq<T>, c: seq<T>, d: seq<T>)
    ensures a + (b + c + d) == a + b + c + d
  {
  }

  lemma {:induction false} Regroup3<T>(a: seq<T>, b: seq<T>, c: seq<T>)
    ensures a + (b + c) == a + b + c
  {
  }

  ghost predicate Distinct<T>(s: seq<T>) {
    forall i, j | 0 <= i < j < |s| :: s[i] != s[j]
  }

  /** The elements of `c` stand in `s` in the same order. */
  ghost predicate Subsequence<T>(c: seq<T>, s: seq<T>) {
    c == [] || (s != [] && ((c[0] == s[0] && Subsequence(c[1..], s[1..])) || Subsequence(c, s[1..])))
  }

  lemma {:induction false} SubsequenceTail<T>(c: seq<T>, s: seq<T>)
    requires c != [] && Subsequence(c, s)
    ensures s != [] && Subsequence(c[1..], s)
    ensures if c[0] == s[0] then Subsequence(c[1..], s[1..]) else Subsequence(c, s[1..])
  {
    if c[0] == s[0] && !Subsequence(c[1..], s[1..]) { SubsequenceTail(c, s[1..]); }
    if c[0] != s[0] { SubsequenceTail(c, s[1..]); }
    if c[1..] != [] {
      if c[0] == s[0] && Subsequence(c[1..], s[1..]) {
        assert Subsequence(c[1..], s);
      } else {
        SubsequenceTail(c, s[1..]);
      }
    }
  }

  lemma {:induction false} SubsequenceSnoc<T>(c: seq<T>, s: seq<T>, x: T)
    requires Subsequence(c, s)
    ensures Subsequence(c, s + [x]) && Subsequence(c + [x], s + [x])
    decreases |s|
  {
    if s == [] {
      assert c + [x] == [x] && [x][1..] == [];
    } else {
      assert (s + [x])[1..] == s[1..] + [x];
      if c == [] {
        SubsequenceSnoc(c, s[1..], x);
      } else if c[0] == s[0] && Subsequence(c[1..], s[1..]) {
        SubsequenceSnoc(c[1..], s[1..], x);
        assert (c + [x])[1..] == c[1..] + [x];
      } else {
        SubsequenceSnoc(c, s[1..], x);
      }
    }
  }

  lemma {:induction false} SubsequenceMember<T>(c: seq<T>, s: seq<T>, x: T)
    requires Subsequence(c, s) && x in c
    ensures x in s
    decreases |s|
  {
    if c[0] == s[0] && Subsequence(c[1..], s[1..]) {
      if x != c[0] { SubsequenceMember(c[1..], s[1..], x); }
    } else {
      SubsequenceMember(c, s[1..], x);
    }
  }

  lemma {:induction false} SubsequenceDistinct<T>(c: seq<T>, s: seq<T>)
    requires Subsequence(c, s) && Distinct(s)
    ensures Distinct(c)
    decreases |s|
  {
    if c != [] {
      if c[0] == s[0] && Subsequence(c[1..], s[1..]) {
        SubsequenceDistinct(c[1..], s[1..]);
        forall j | 0 < j < |c| ensures c[0] != c[j] {
          assert c[1..][j - 1] == c[j];
          SubsequenceMember(c[1..], s[1..], c[j]);
          var k :| 0 <= k < |s[1..]| && s[1..][k] == c[j];
          assert s[0] != s[k + 1];
        }
      } else {
        SubsequenceDistinct(c, s[1..]);
      }
    }
  }

  /** The length of the common beginning of two sequences. */
  function PrefixLength<T>(a: seq<T>, b: seq<T>, same: (T, T) -> bool): (n: nat)
    ensures n <= |a| && n <= |b| && forall i | 0 <= i < n :: same(a[i], b[i])
    ensures n == |a| || n == |b| || !same(a[n], b[n])
  {
    if a == [] || b == [] || !same(a[0], b[0]) then 0 else 1 + PrefixLength(a[1..], b[1..], same)
  }

  lemma {:induction false} PrefixIsUnique<T>(a: seq<T>, b: seq<T>, same: (T, T) -> bool, n: nat)
    requires n <= |a| && n <= |b| && forall i | 0 <= i < n :: same(a[i], b[i])
    requires n == |a| || n == |b| || !same(a[n], b[n])
    ensures PrefixLength(a, b, same) == n
  {
    if n > 0 { PrefixIsUnique(a[1..], b[1..], same, n - 1); }
  }

  lemma {:induction false} PrefixIsLongest<T>(a: seq<T>, b: seq<T>, same: (T, T) -> bool, n: nat)
    requires n <= |a| && n <= |b| && forall i | 0 <= i < n :: same(a[i], b[i])
    ensures n <= PrefixLength(a, b, same)
  {
    if n > 0 { PrefixIsLongest(a[1..], b[1..], same, n - 1); }
  }
}
