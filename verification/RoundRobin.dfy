/** The selection of evaluation rows, repository by repository in turns. */
module RoundRobin {
  import opened Prelude
  import opened StableSort

  // ------------------------------------------------------------- positions

  /** The row of a group that a round takes. */
  datatype Position = Position(group: nat, round: nat)

  /** The positions of one round, up to group `m`. */
  function Turn(lengths: seq<nat>, round: nat, m: nat): seq<Position>
    requires m <= |lengths|
  {
    if m == 0 then []
    else Turn(lengths, round, m - 1) + if round < lengths[m - 1] then [Position(m - 1, round)] else []
  }

  /** The positions of the first rounds. */
  function Rounds(lengths: seq<nat>, n: nat): seq<Position> {
    if n == 0 then [] else Rounds(lengths, n - 1) + Turn(lengths, n - 1, |lengths|)
  }

  /** The rounds until the longest group is used up. */
  function Longest(lengths: seq<nat>): nat {
    if lengths == [] then 0 else Max(Longest(lengths[..|lengths| - 1]), lengths[|lengths| - 1])
  }

  /** All positions in the order in which they are taken. */
  function Order(lengths: seq<nat>): seq<Position> {
    Rounds(lengths, Longest(lengths))
  }

  lemma {:induction false} LongestIs(lengths: seq<nat>, i: nat)
    requires i < |lengths|
    ensures lengths[i] <= Longest(lengths)
  {
    if i < |lengths| - 1 { LongestIs(lengths[..|lengths| - 1], i); }
  }

  /** The round comes to the position before group `m`. */
  predicate InTurn(lengths: seq<nat>, round: nat, m: nat, p: Position) {
    p.round == round && p.group < m && p.group < |lengths| && round < lengths[p.group]
  }

  /** The position comes up in the first `n` rounds. */
  predicate InRounds(lengths: seq<nat>, n: nat, p: Position) {
    p.round < n && p.group < |lengths| && p.round < lengths[p.group]
  }

  lemma {:induction false} TurnMember(lengths: seq<nat>, round: nat, m: nat, turn: seq<Position>, p: Position)
    requires m <= |lengths| && turn == Turn(lengths, round, m)
    ensures p in turn <==> InTurn(lengths, round, m, p)
    decreases m
  {
    if m > 0 { TurnMember(lengths, round, m - 1, Turn(lengths, round, m - 1), p); }
  }

  lemma {:induction false} RoundsHave(lengths: seq<nat>, n: nat, rounds: seq<Position>, p: Position)
    requires rounds == Rounds(lengths, n) && InRounds(lengths, n, p)
    ensures p in rounds
    decreases n
  {
    var before, turn := Rounds(lengths, n - 1), Turn(lengths, n - 1, |lengths|);
    if p.round == n - 1 {
      TurnMember(lengths, n - 1, |lengths|, turn, p);
      InEither(before, turn, p);
    } else {
      RoundsHave(lengths, n - 1, before, p);
      InEither(before, turn, p);
    }
  }

  lemma {:induction false} RoundsHaveOnly(lengths: seq<nat>, n: nat, rounds: seq<Position>, p: Position)
    requires rounds == Rounds(lengths, n) && p in rounds
    ensures InRounds(lengths, n, p)
    decreases n
  {
    var before, turn := Rounds(lengths, n - 1), Turn(lengths, n - 1, |lengths|);
    InEither(before, turn, p);
    if p in before {
      RoundsHaveOnly(lengths, n - 1, before, p);
    } else {
      TurnMember(lengths, n - 1, |lengths|, turn, p);
    }
  }

  lemma {:induction false} InEither<T>(a: seq<T>, b: seq<T>, x: T)
    ensures x in a + b <==> x in a || x in b
  {
  }

  /** Every position of the groups is in the order, and nothing else is. */
  lemma {:induction false} OrderMember(lengths: seq<nat>, p: Position)
    ensures p in Order(lengths) <==> p.group < |lengths| && p.round < lengths[p.group]
  {
    if p in Order(lengths) { RoundsHaveOnly(lengths, Longest(lengths), Order(lengths), p); }
    if p.group < |lengths| && p.round < lengths[p.group] {
      LongestIs(lengths, p.group);
      RoundsHave(lengths, Longest(lengths), Order(lengths), p);
    }
  }

  lemma {:induction false} DistinctSnoc<T>(s: seq<T>, x: T)
    requires Distinct(s) && x !in s
    ensures Distinct(s + [x])
  {
  }

  lemma {:induction false} DistinctPlus<T>(s: seq<T>, t: seq<T>)
    requires Distinct(s) && Distinct(t) && forall x <- t :: x !in s
    ensures Distinct(s + t)
  {
    forall i, j | 0 <= i < j < |s + t| ensures (s + t)[i] != (s + t)[j] {
      if i < |s| <= j { assert t[j - |s|] in t; assert s[i] in s; }
    }
  }

  lemma {:induction false} TurnDistinct(lengths: seq<nat>, round: nat, m: nat)
    requires m <= |lengths|
    ensures Distinct(Turn(lengths, round, m))
  {
    if m > 0 {
      TurnDistinct(lengths, round, m - 1);
      TurnMember(lengths, round, m - 1, Turn(lengths, round, m - 1), Position(m - 1, round));
      DistinctSnoc(Turn(lengths, round, m - 1), Position(m - 1, round));
    }
  }

  lemma {:induction false} RoundsDistinct(lengths: seq<nat>, n: nat)
    ensures Distinct(Rounds(lengths, n))
  {
    if n > 0 {
      RoundsDistinct(lengths, n - 1);
      TurnDistinct(lengths, n - 1, |lengths|);
      TurnIsNew(lengths, n - 1, Rounds(lengths, n - 1), Turn(lengths, n - 1, |lengths|));
      DistinctPlus(Rounds(lengths, n - 1), Turn(lengths, n - 1, |lengths|));
    }
  }

  lemma {:induction false} TurnIsNew(lengths: seq<nat>, n: nat, rounds: seq<Position>, turn: seq<Position>)
    requires rounds == Rounds(lengths, n) && turn == Turn(lengths, n, |lengths|)
    ensures forall p <- turn :: p !in rounds
  {
    forall p | p in turn ensures p !in rounds {
      TurnMember(lengths, n, |lengths|, turn, p);
      if p in rounds { RoundsHaveOnly(lengths, n, rounds, p); }
    }
  }

  /** One position comes before another: in an earlier round, or in the same round with a
      group that stands before the other. */
  predicate Earlier(p: Position, q: Position) {
    p.round < q.round || (p.round == q.round && p.group < q.group)
  }

  ghost predicate InEarlierOrder(ps: seq<Position>) {
    forall i, j | 0 <= i < j < |ps| :: Earlier(ps[i], ps[j])
  }

  lemma {:induction false} EarlierPlus(s: seq<Position>, t: seq<Position>)
    requires InEarlierOrder(s) && InEarlierOrder(t) && forall p <- s, q <- t :: Earlier(p, q)
    ensures InEarlierOrder(s + t)
  {
    forall i, j | 0 <= i < j < |s + t| ensures Earlier((s + t)[i], (s + t)[j]) {
      if i < |s| <= j { assert s[i] in s && t[j - |s|] in t; }
    }
  }

  lemma {:induction false} TurnInOrder(lengths: seq<nat>, round: nat, m: nat)
    requires m <= |lengths|
    ensures InEarlierOrder(Turn(lengths, round, m))
  {
    if m > 0 {
      var before, next := Turn(lengths, round, m - 1), Position(m - 1, round);
      TurnInOrder(lengths, round, m - 1);
      forall p | p in before ensures Earlier(p, next) { TurnMember(lengths, round, m - 1, before, p); }
      if round < lengths[m - 1] { EarlierPlus(before, [next]); }
    }
  }

  lemma {:induction false} RoundsInOrder(lengths: seq<nat>, n: nat)
    ensures InEarlierOrder(Rounds(lengths, n))
  {
    if n > 0 {
      var before, turn := Rounds(lengths, n - 1), Turn(lengths, n - 1, |lengths|);
      RoundsInOrder(lengths, n - 1);
      TurnInOrder(lengths, n - 1, |lengths|);
      forall p, q | p in before && q in turn ensures Earlier(p, q) {
        RoundsHaveOnly(lengths, n - 1, before, p);
        TurnMember(lengths, n - 1, |lengths|, turn, q);
      }
      EarlierPlus(before, turn);
    }
  }

  /** The rows are taken round by round, and in every round group by group. */
  lemma {:induction false} OrderIsByRounds(lengths: seq<nat>)
    ensures InEarlierOrder(Order(lengths))
  {
    RoundsInOrder(lengths, Longest(lengths));
  }

  // ----------------------------------------------------------- the rounds

  lemma {:induction false} EmptyTurn(lengths: seq<nat>, round: nat, m: nat)
    requires m <= |lengths|
    ensures Turn(lengths, round, m) == [] <==> forall i | 0 <= i < m :: lengths[i] <= round
  {
    if m > 0 { EmptyTurn(lengths, round, m - 1); }
  }

  lemma {:induction false} LongestBound(lengths: seq<nat>, n: nat)
    requires forall i | 0 <= i < |lengths| :: lengths[i] <= n
    ensures Longest(lengths) <= n
  {
    if lengths != [] { LongestBound(lengths[..|lengths| - 1], n); }
  }

  /** Further rounds add nothing. */
  lemma {:induction false} RoundsEnd(lengths: seq<nat>, n: nat)
    requires Longest(lengths) <= n
    ensures Rounds(lengths, n) == Order(lengths)
  {
    if Longest(lengths) < n {
      RoundsEnd(lengths, n - 1);
      forall i | 0 <= i < |lengths| ensures lengths[i] <= n - 1 { LongestIs(lengths, i); }
      EmptyTurn(lengths, n - 1, |lengths|);
    }
  }

  lemma {:induction false} TurnGrows(lengths: seq<nat>, round: nat, m: nat, k: nat)
    requires m <= k <= |lengths|
    ensures Turn(lengths, round, m) <= Turn(lengths, round, k)
  {
    if m < k { TurnGrows(lengths, round, m, k - 1); }
  }

  lemma {:induction false} RoundsGrow(lengths: seq<nat>, n: nat, k: nat)
    requires n <= k
    ensures Rounds(lengths, n) <= Rounds(lengths, k)
  {
    if n < k { RoundsGrow(lengths, n, k - 1); }
  }

  /** Some rounds and a part of the next are a beginning of the order. */
  lemma {:induction false} PartialIsPrefix(lengths: seq<nat>, n: nat, m: nat)
    requires m <= |lengths|
    ensures Rounds(lengths, n) + Turn(lengths, n, m) <= Order(lengths)
  {
    TurnGrows(lengths, n, m, |lengths|);
    var end := Max(n + 1, Longest(lengths));
    RoundsGrow(lengths, n + 1, end);
    RoundsEnd(lengths, end);
  }

  /** Every beginning of the order is of that form. */
  lemma {:induction false} PrefixIsPartial(lengths: seq<nat>, c: nat) returns (n: nat, m: nat)
    requires c <= |Order(lengths)|
    ensures m <= |lengths| && Order(lengths)[..c] == Rounds(lengths, n) + Turn(lengths, n, m)
  {
    n := PrefixRound(lengths, Longest(lengths), c);
    RoundsGrow(lengths, n, Longest(lengths));
    m := PrefixTurn(lengths, n, |lengths|, c - |Rounds(lengths, n)|);
    PartialIsPrefix(lengths, n, m);
  }

  lemma {:induction false} PrefixRound(lengths: seq<nat>, k: nat, c: nat) returns (n: nat)
    requires c <= |Rounds(lengths, k)|
    ensures n <= k && |Rounds(lengths, n)| <= c
    ensures c - |Rounds(lengths, n)| <= |Turn(lengths, n, |lengths|)|
  {
    if c == |Rounds(lengths, k)| {
      n := k;
    } else if c < |Rounds(lengths, k - 1)| {
      n := PrefixRound(lengths, k - 1, c);
    } else {
      n := k - 1;
    }
  }

  lemma {:induction false} PrefixTurn(lengths: seq<nat>, round: nat, k: nat, c: nat) returns (m: nat)
    requires k <= |lengths| && c <= |Turn(lengths, round, k)|
    ensures m <= k && |Turn(lengths, round, m)| == c
  {
    if c == |Turn(lengths, round, k)| { m := k; } else { m := PrefixTurn(lengths, round, k - 1, c); }
  }

  // -------------------------------------------------------------- shares

  /** How many positions belong to the group. */
  function Share(ps: seq<Position>, group: nat): nat {
    if ps == [] then 0
    else Share(ps[..|ps| - 1], group) + if ps[|ps| - 1].group == group then 1 else 0
  }

  lemma {:induction false} SharePlus(a: seq<Position>, b: seq<Position>, group: nat)
    ensures Share(a + b, group) == Share(a, group) + Share(b, group)
    decreases |b|
  {
    if b == [] {
      assert a + b == a;
    } else {
      assert (a + b)[..|a + b| - 1] == a + b[..|b| - 1];
      SharePlus(a, b[..|b| - 1], group);
    }
  }

  lemma {:induction false} ShareOne(p: Position, group: nat)
    ensures Share([p], group) == if p.group == group then 1 else 0
  {
    assert [p][..0] == [];
  }

  lemma {:induction false} ShareOfTurn(lengths: seq<nat>, round: nat, m: nat, group: nat)
    requires m <= |lengths| && group < |lengths|
    ensures Share(Turn(lengths, round, m), group) == if group < m && round < lengths[group] then 1 else 0
  {
    if m > 0 {
      ShareOfTurn(lengths, round, m - 1, group);
      ShareOne(Position(m - 1, round), group);
      SharePlus(Turn(lengths, round, m - 1), [Position(m - 1, round)], group);
      SharePlus(Turn(lengths, round, m - 1), [], group);
    }
  }

  lemma {:induction false} ShareOfNextTurn(
      lengths: seq<nat>, n: nat, group: nat, before: seq<Position>, after: seq<Position>)
    requires group < |lengths| && after == before + Turn(lengths, n, |lengths|)
    ensures Share(after, group) == Share(before, group) + if n < lengths[group] then 1 else 0
  {
    SharePlus(before, Turn(lengths, n, |lengths|), group);
    ShareOfTurn(lengths, n, |lengths|, group);
  }

  lemma {:induction false} ShareOfRounds(lengths: seq<nat>, n: nat, rounds: seq<Position>, group: nat)
    requires group < |lengths| && rounds == Rounds(lengths, n)
    ensures Share(rounds, group) == Min(n, lengths[group])
    decreases n
  {
    if n > 0 {
      var before := Rounds(lengths, n - 1);
      ShareOfRounds(lengths, n - 1, before, group);
      ShareOfNextTurn(lengths, n - 1, group, before, rounds);
    }
  }

  /** However many positions are taken, a group is two or more ahead of another only when the
      other is used up. */
  lemma {:induction false} SharesAreFair(lengths: seq<nat>, c: nat, i: nat, j: nat)
    requires c <= |Order(lengths)| && i < |lengths| && j < |lengths|
    ensures var taken := Order(lengths)[..c];
            Share(taken, i) <= Share(taken, j) + 1 || Share(taken, j) == lengths[j]
  {
    var n, m := PrefixIsPartial(lengths, c);
    ShareOfPartial(lengths, n, m, i);
    ShareOfPartial(lengths, n, m, j);
  }

  lemma {:induction false} ShareOfPartial(lengths: seq<nat>, n: nat, m: nat, i: nat)
    requires m <= |lengths| && i < |lengths|
    ensures Share(Rounds(lengths, n) + Turn(lengths, n, m), i)
            == Min(n, lengths[i]) + if i < m && n < lengths[i] then 1 else 0
  {
    SharePlus(Rounds(lengths, n), Turn(lengths, n, m), i);
    ShareOfRounds(lengths, n, Rounds(lengths, n), i);
    ShareOfTurn(lengths, n, m, i);
  }

  // -------------------------------------------------------------- total

  function Sum(lengths: seq<nat>): nat {
    if lengths == [] then 0 else Sum(lengths[..|lengths| - 1]) + lengths[|lengths| - 1]
  }

  function Capped(lengths: seq<nat>, n: nat, m: nat): nat
    requires m <= |lengths|
  {
    if m == 0 then 0 else Capped(lengths, n, m - 1) + Min(n, lengths[m - 1])
  }

  lemma {:induction false} CappedStep(lengths: seq<nat>, n: nat, m: nat)
    requires m <= |lengths|
    ensures Capped(lengths, n + 1, m) == Capped(lengths, n, m) + |Turn(lengths, n, m)|
  {
    if m > 0 { CappedStep(lengths, n, m - 1); }
  }

  lemma {:induction false} CappedNone(lengths: seq<nat>, m: nat)
    requires m <= |lengths|
    ensures Capped(lengths, 0, m) == 0
  {
    if m > 0 { CappedNone(lengths, m - 1); }
  }

  lemma {:induction false} CappedAll(lengths: seq<nat>, n: nat, m: nat)
    requires m <= |lengths| && Longest(lengths) <= n
    ensures Capped(lengths, n, m) == Sum(lengths[..m])
  {
    if m > 0 {
      CappedAll(lengths, n, m - 1);
      LongestIs(lengths, m - 1);
      assert lengths[..m][..m - 1] == lengths[..m - 1];
    }
  }

  lemma {:induction false} RoundsLength(lengths: seq<nat>, n: nat)
    ensures |Rounds(lengths, n)| == Capped(lengths, n, |lengths|)
  {
    if n == 0 {
      CappedNone(lengths, |lengths|);
    } else {
      RoundsLength(lengths, n - 1);
      CappedStep(lengths, n - 1, |lengths|);
    }
  }

  lemma {:induction false} OrderLength(lengths: seq<nat>)
    ensures |Order(lengths)| == Sum(lengths)
  {
    RoundsLength(lengths, Longest(lengths));
    CappedAll(lengths, Longest(lengths), |lengths|);
    assert lengths[..|lengths|] == lengths;
  }

  // --------------------------------------------------------------- rows

  datatype Row = Row(repo: string, instanceId: string)

  function Lengths(groups: seq<seq<Row>>): (r: seq<nat>)
    ensures |r| == |groups|
  {
    seq(|groups|, i requires 0 <= i < |groups| => |groups[i]|)
  }

  predicate Within(groups: seq<seq<Row>>, ps: seq<Position>) {
    forall i | 0 <= i < |ps| :: ps[i].group < |groups| && ps[i].round < |groups[ps[i].group]|
  }

  function RowsAt(groups: seq<seq<Row>>, ps: seq<Position>): (r: seq<Row>)
    requires Within(groups, ps)
    ensures |r| == |ps|
  {
    seq(|ps|, i requires 0 <= i < |ps| => groups[ps[i].group][ps[i].round])
  }

  lemma {:induction false} OrderWithin(groups: seq<seq<Row>>)
    ensures Within(groups, Order(Lengths(groups)))
  {
    var order := Order(Lengths(groups));
    forall i | 0 <= i < |order| ensures order[i].group < |groups| && order[i].round < |groups[order[i].group]| {
      assert order[i] in order;
      OrderMember(Lengths(groups), order[i]);
    }
  }

  /** The first `count` rows in the order of the rounds, or all of them. */
  function Taken(groups: seq<seq<Row>>, count: nat): seq<Row> {
    var order := Order(Lengths(groups));
    OrderWithin(groups);
    RowsAt(groups, order[..Min(count, |order|)])
  }

  lemma {:induction false} PartialWithin(groups: seq<seq<Row>>, n: nat, m: nat)
    requires m <= |groups|
    ensures Within(groups, Rounds(Lengths(groups), n) + Turn(Lengths(groups), n, m))
    ensures var ps := Rounds(Lengths(groups), n) + Turn(Lengths(groups), n, m);
            |ps| <= |Order(Lengths(groups))| && RowsAt(groups, ps) == Taken(groups, |ps|)
  {
    var lengths := Lengths(groups);
    var ps := Rounds(lengths, n) + Turn(lengths, n, m);
    PartialIsPrefix(lengths, n, m);
    OrderWithin(groups);
    forall i | 0 <= i < |ps| ensures ps[i].group < |groups| && ps[i].round < |groups[ps[i].group]| {
      assert ps[i] == Order(lengths)[i];
    }
    assert Order(lengths)[..|ps|] == ps;
  }

  /** The row that one more group adds. */
  lemma {:induction false} OneMore(groups: seq<seq<Row>>, n: nat, m: nat)
    requires m < |groups|
    ensures var lengths := Lengths(groups);
            var before := |Rounds(lengths, n) + Turn(lengths, n, m)|;
            Taken(groups, |Rounds(lengths, n) + Turn(lengths, n, m + 1)|)
            == Taken(groups, before) + if n < |groups[m]| then [groups[m][n]] else []
  {
    var lengths := Lengths(groups);
    PartialWithin(groups, n, m);
    PartialWithin(groups, n, m + 1);
    var ps := Rounds(lengths, n) + Turn(lengths, n, m);
    var next := Rounds(lengths, n) + Turn(lengths, n, m + 1);
    if n < |groups[m]| {
      Regroup3(Rounds(lengths, n), Turn(lengths, n, m), [Position(m, n)]);
      assert next == ps + [Position(m, n)];
    } else {
      assert next == ps;
    }
  }

  lemma {:induction false} TurnDone(groups: seq<seq<Row>>, n: nat)
    ensures Rounds(Lengths(groups), n + 1) + Turn(Lengths(groups), n + 1, 0)
            == Rounds(Lengths(groups), n) + Turn(Lengths(groups), n, |groups|)
  {
  }

  lemma {:induction false} NothingAdded(groups: seq<seq<Row>>, n: nat, count: nat)
    requires Turn(Lengths(groups), n, |groups|) == []
    requires |Rounds(Lengths(groups), n)| <= count
    ensures Taken(groups, |Rounds(Lengths(groups), n)|) == Taken(groups, count)
  {
    var lengths := Lengths(groups);
    EmptyTurn(lengths, n, |lengths|);
    LongestBound(lengths, n);
    RoundsEnd(lengths, n);
  }

  method SelectInTurns(groups: seq<seq<Row>>, count: nat) returns (selected: seq<Row>)
    ensures selected == Taken(groups, count)
  {
    ghost var lengths := Lengths(groups);
    selected := [];
    var round := 0;
    while |selected| < count
      invariant |selected| <= count
      invariant selected == Taken(groups, |selected|)
      invariant |selected| < count ==> |selected| == |Rounds(lengths, round)|
      decreases count - |selected|
    {
      var added := 0;
      ghost var start := |selected|;
      for i := 0 to |groups|
        invariant |selected| == |Rounds(lengths, round) + Turn(lengths, round, i)| < count
        invariant selected == Taken(groups, |selected|)
        invariant added == |selected| - start >= 0
      {
        OneMore(groups, round, i);
        var instances := groups[i];
        if round >= |instances| { continue; }
        selected := selected + [instances[round]];
        added := added + 1;
        if |selected| == count { return; }
      }
      TurnDone(groups, round);
      if added == 0 {
        NothingAdded(groups, round, count);
        break;
      }
      round := round + 1;
    }
  }

  lemma {:induction false} TakenLength(groups: seq<seq<Row>>, count: nat)
    ensures |Taken(groups, count)| == Min(count, Sum(Lengths(groups)))
  {
    OrderLength(Lengths(groups));
  }

  /** A smaller selection is a beginning of a larger one. */
  lemma {:induction false} SmallerIsPrefix(groups: seq<seq<Row>>, count: nat, larger: nat)
    requires count <= larger
    ensures Taken(groups, count) <= Taken(groups, larger)
  {
  }

  // ------------------------------------------------------------ grouping

  function RepoRows(rows: seq<Row>, repo: string): seq<Row> {
    if rows == [] then []
    else RepoRows(rows[..|rows| - 1], repo) + if rows[|rows| - 1].repo == repo then [rows[|rows| - 1]] else []
  }

  function Repos(rows: seq<Row>): seq<string> {
    if rows == [] then []
    else
      var before, repo := Repos(rows[..|rows| - 1]), rows[|rows| - 1].repo;
      if repo in before then before else before + [repo]
  }

  /** The ranks are the digests of the seed with a name, as numbers. */
  function Ordered(rows: seq<Row>, rank: string -> int): seq<string> {
    Sort(Repos(rows), rank)
  }

  function GroupOf(rows: seq<Row>, rank: string -> int, repo: string): seq<Row> {
    Sort(RepoRows(rows, repo), (row: Row) => rank(row.instanceId))
  }

  function Groups(rows: seq<Row>, rank: string -> int): (groups: seq<seq<Row>>)
    ensures |groups| == |Ordered(rows, rank)|
  {
    seq(|Ordered(rows, rank)|, i requires 0 <= i < |Ordered(rows, rank)| => GroupOf(rows, rank, Ordered(rows, rank)[i]))
  }

  datatype Selection = Selected(rows: seq<Row>) | NotPositive | TooFew(selected: nat)

  function Append(byRepo: map<string, seq<Row>>, row: Row): map<string, seq<Row>> {
    byRepo[row.repo := (if row.repo in byRepo then byRepo[row.repo] else []) + [row]]
  }

  ghost predicate GroupedBy(byRepo: map<string, seq<Row>>, order: seq<string>, rows: seq<Row>) {
    order == Repos(rows) && (forall repo :: repo in byRepo <==> repo in order)
    && forall repo <- byRepo :: byRepo[repo] == RepoRows(rows, repo)
  }

  lemma {:induction false} ReposMember(rows: seq<Row>, repo: string)
    ensures repo in Repos(rows) <==> RepoRows(rows, repo) != []
  {
    if rows != [] { ReposMember(rows[..|rows| - 1], repo); }
  }

  lemma {:induction false} GroupStep(byRepo: map<string, seq<Row>>, order: seq<string>, rows: seq<Row>, row: Row)
    requires GroupedBy(byRepo, order, rows)
    ensures GroupedBy(Append(byRepo, row), if row.repo in order then order else order + [row.repo], rows + [row])
  {
    assert (rows + [row])[..|rows|] == rows;
    ReposMember(rows, row.repo);
  }

  method SelectVerified(rows: seq<Row>, count: int, rank: string -> int) returns (r: Selection)
    ensures r == if count < 1 then NotPositive
                 else if |Taken(Groups(rows, rank), count)| == count then Selected(Taken(Groups(rows, rank), count))
                 else TooFew(|Taken(Groups(rows, rank), count)|)
  {
    if count < 1 { return NotPositive; }
    var byRepo: map<string, seq<Row>> := map[];
    var order: seq<string> := [];
    for i := 0 to |rows|
      invariant GroupedBy(byRepo, order, rows[..i])
    {
      assert rows[..i + 1] == rows[..i] + [rows[i]];
      GroupStep(byRepo, order, rows[..i], rows[i]);
      if rows[i].repo !in order { order := order + [rows[i].repo]; }
      byRepo := Append(byRepo, rows[i]);
    }
    assert rows[..|rows|] == rows;
    var ordered := Sort(order, rank);
    var groups: seq<seq<Row>> := [];
    for i := 0 to |ordered|
      invariant |groups| == i
      invariant forall k | 0 <= k < i :: groups[k] == GroupOf(rows, rank, ordered[k])
    {
      assert ordered[i] in ordered;
      SortMember(order, rank, ordered[i]);
      groups := groups + [Sort(byRepo[ordered[i]], (row: Row) => rank(row.instanceId))];
    }
    assert groups == Groups(rows, rank);
    var selected := SelectInTurns(groups, count);
    if |selected| != count { return TooFew(|selected|); }
    r := Selected(selected);
  }

  // -------------------------------------------------- what is selected

  lemma {:induction false} ReposDistinct(rows: seq<Row>)
    ensures Distinct(Repos(rows))
  {
    if rows != [] {
      ReposDistinct(rows[..|rows| - 1]);
      if rows[|rows| - 1].repo !in Repos(rows[..|rows| - 1]) {
        DistinctSnoc(Repos(rows[..|rows| - 1]), rows[|rows| - 1].repo);
      }
    }
  }

  lemma {:induction false} RepoRowsAre(rows: seq<Row>, repo: string)
    ensures forall row :: row in RepoRows(rows, repo) <==> row in rows && row.repo == repo
    ensures Distinct(rows) ==> Distinct(RepoRows(rows, repo))
  {
    if rows != [] {
      var init, last := rows[..|rows| - 1], rows[|rows| - 1];
      assert rows == init + [last];
      RepoRowsAre(init, repo);
      if Distinct(rows) && last.repo == repo {
        assert last !in init;
        DistinctSnoc(RepoRows(init, repo), last);
      }
    }
  }

  lemma {:induction false} GroupMember(rows: seq<Row>, rank: string -> int, repo: string)
    ensures |GroupOf(rows, rank, repo)| == |RepoRows(rows, repo)|
    ensures forall row :: row in GroupOf(rows, rank, repo) <==> row in rows && row.repo == repo
    ensures Distinct(rows) ==> Distinct(GroupOf(rows, rank, repo))
  {
    RepoRowsAre(rows, repo);
    forall row: Row ensures row in GroupOf(rows, rank, repo) <==> row in rows && row.repo == repo {
      SortMember(RepoRows(rows, repo), (row: Row) => rank(row.instanceId), row);
    }
    if Distinct(rows) { SortDistinct(RepoRows(rows, repo), (row: Row) => rank(row.instanceId)); }
  }

  /** The sum of the sizes of the groups. */
  function Total(repos: seq<string>, rows: seq<Row>): nat {
    if repos == [] then 0 else Total(repos[..|repos| - 1], rows) + |RepoRows(rows, repos[|repos| - 1])|
  }

  lemma {:induction false} TotalNone(repos: seq<string>)
    ensures Total(repos, []) == 0
  {
    if repos != [] { TotalNone(repos[..|repos| - 1]); }
  }

  lemma {:induction false} TotalStep(repos: seq<string>, rows: seq<Row>, row: Row)
    requires Distinct(repos)
    ensures Total(repos, rows + [row]) == Total(repos, rows) + if row.repo in repos then 1 else 0
  {
    if repos != [] {
      var init, last := repos[..|repos| - 1], repos[|repos| - 1];
      assert repos == init + [last] && last !in init;
      TotalStep(init, rows, row);
      assert (rows + [row])[..|rows|] == rows;
    }
  }

  lemma {:induction false} TotalIs(repos: seq<string>, rows: seq<Row>)
    requires Distinct(repos) && forall row <- rows :: row.repo in repos
    ensures Total(repos, rows) == |rows|
  {
    if rows == [] {
      TotalNone(repos);
    } else {
      var init, last := rows[..|rows| - 1], rows[|rows| - 1];
      assert rows == init + [last];
      TotalIs(repos, init);
      TotalStep(repos, init, last);
    }
  }

  lemma {:induction false} SumIsTotal(rows: seq<Row>, rank: string -> int, m: nat)
    requires m <= |Ordered(rows, rank)|
    ensures Sum(Lengths(Groups(rows, rank))[..m]) == Total(Ordered(rows, rank)[..m], rows)
  {
    if m > 0 {
      SumIsTotal(rows, rank, m - 1);
      var lengths, repos := Lengths(Groups(rows, rank)), Ordered(rows, rank);
      assert lengths[..m][..m - 1] == lengths[..m - 1] && repos[..m][..m - 1] == repos[..m - 1];
      GroupMember(rows, rank, repos[m - 1]);
    }
  }

  lemma {:induction false} OrderedAre(rows: seq<Row>, rank: string -> int)
    ensures Distinct(Ordered(rows, rank))
    ensures forall row <- rows :: row.repo in Ordered(rows, rank)
  {
    ReposDistinct(rows);
    SortDistinct(Repos(rows), rank);
    forall row | row in rows ensures row.repo in Ordered(rows, rank) {
      RepoRowsAre(rows, row.repo);
      assert row in RepoRows(rows, row.repo);
      ReposMember(rows, row.repo);
      SortMember(Repos(rows), rank, row.repo);
    }
  }

  ghost predicate Ranked(group: seq<Row>, repo: string, rank: string -> int) {
    && (forall i | 0 <= i < |group| :: group[i].repo == repo)
    && forall i, j | 0 <= i < j < |group| :: rank(group[i].instanceId) <= rank(group[j].instanceId)
  }

  /** The groups stand in the order of their ranks, and so do the rows of a group. */
  lemma {:induction false} GroupsAreRanked(rows: seq<Row>, rank: string -> int)
    ensures Sorted(Ordered(rows, rank), rank)
    ensures forall g | 0 <= g < |Groups(rows, rank)| :: Ranked(Groups(rows, rank)[g], Ordered(rows, rank)[g], rank)
  {
    SortSorts(Repos(rows), rank);
    forall g | 0 <= g < |Groups(rows, rank)| ensures Ranked(Groups(rows, rank)[g], Ordered(rows, rank)[g], rank) {
      GroupIsRanked(rows, rank, Ordered(rows, rank)[g]);
    }
  }

  lemma {:induction false} GroupIsRanked(rows: seq<Row>, rank: string -> int, repo: string)
    ensures Ranked(GroupOf(rows, rank, repo), repo, rank)
  {
    var group := GroupOf(rows, rank, repo);
    GroupMember(rows, rank, repo);
    SortSorts(RepoRows(rows, repo), (row: Row) => rank(row.instanceId));
    forall i | 0 <= i < |group| ensures group[i].repo == repo { assert group[i] in group; }
  }

  /** Nothing gets lost by grouping: as many rows are taken as were asked for, as long as
      there are any. */
  lemma {:induction false} SelectionLength(rows: seq<Row>, rank: string -> int, count: nat)
    ensures |Taken(Groups(rows, rank), count)| == Min(count, |rows|)
  {
    var groups, repos := Groups(rows, rank), Ordered(rows, rank);
    TakenLength(groups, count);
    SumIsTotal(rows, rank, |repos|);
    assert Lengths(groups)[..|repos|] == Lengths(groups) && repos[..|repos|] == repos;
    OrderedAre(rows, rank);
    TotalIs(repos, rows);
  }

  lemma {:induction false} TakenAt(groups: seq<seq<Row>>, count: nat, i: nat) returns (p: Position)
    requires i < |Taken(groups, count)|
    ensures i < |Order(Lengths(groups))| && p == Order(Lengths(groups))[i]
    ensures p.group < |groups| && p.round < |groups[p.group]| && Taken(groups, count)[i] == groups[p.group][p.round]
  {
    p := Order(Lengths(groups))[i];
    OrderWithin(groups);
  }

  /** Rows that differ are taken once at most, and only rows that were given. */
  lemma {:induction false} SelectionIsDistinct(rows: seq<Row>, rank: string -> int, count: nat)
    ensures forall row <- Taken(Groups(rows, rank), count) :: row in rows
    ensures Distinct(rows) ==> Distinct(Taken(Groups(rows, rank), count))
  {
    var groups, repos := Groups(rows, rank), Ordered(rows, rank);
    var taken := Taken(groups, count);
    RoundsDistinct(Lengths(groups), Longest(Lengths(groups)));
    OrderedAre(rows, rank);
    forall i | 0 <= i < |taken| ensures taken[i] in rows {
      var p := TakenAt(groups, count, i);
      GroupMember(rows, rank, repos[p.group]);
      assert taken[i] in groups[p.group];
    }
    if Distinct(rows) {
      forall i, j | 0 <= i < j < |taken| ensures taken[i] != taken[j] {
        var p := TakenAt(groups, count, i);
        var q := TakenAt(groups, count, j);
        assert p != q;
        GroupMember(rows, rank, repos[p.group]);
        GroupMember(rows, rank, repos[q.group]);
        assert taken[i] in groups[p.group] && taken[j] in groups[q.group];
        if p.group != q.group {
          assert repos[p.group] != repos[q.group];
        }
      }
    }
  }

  lemma {:induction false} ShareIsRepoRows(rows: seq<Row>, rank: string -> int, ps: seq<Position>, i: nat)
    requires i < |Ordered(rows, rank)| && Within(Groups(rows, rank), ps)
    ensures |RepoRows(RowsAt(Groups(rows, rank), ps), Ordered(rows, rank)[i])| == Share(ps, i)
  {
    if ps != [] {
      var init, last := ps[..|ps| - 1], ps[|ps| - 1];
      var groups, repos := Groups(rows, rank), Ordered(rows, rank);
      ShareIsRepoRows(rows, rank, init, i);
      assert RowsAt(groups, ps)[..|ps| - 1] == RowsAt(groups, init);
      var row := groups[last.group][last.round];
      GroupMember(rows, rank, repos[last.group]);
      assert row in groups[last.group];
      OrderedAre(rows, rank);
      assert last.group != i ==> repos[last.group] != repos[i];
    }
  }

  /** The promise of the selection: whatever is asked for, a repository has at most one row
      more than another, unless all rows of the other are taken. */
  lemma {:induction false} RepositoriesAreBalanced(
      rows: seq<Row>, rank: string -> int, count: nat, repo: string, other: string)
    requires repo in Ordered(rows, rank) && other in Ordered(rows, rank)
    ensures var taken := Taken(Groups(rows, rank), count);
            || |RepoRows(taken, repo)| <= |RepoRows(taken, other)| + 1
            || |RepoRows(taken, other)| == |RepoRows(rows, other)|
  {
    var groups, repos := Groups(rows, rank), Ordered(rows, rank);
    var order := Order(Lengths(groups));
    var i :| 0 <= i < |repos| && repos[i] == repo;
    var j :| 0 <= j < |repos| && repos[j] == other;
    var c := Min(count, |order|);
    OrderWithin(groups);
    ShareIsRepoRows(rows, rank, order[..c], i);
    ShareIsRepoRows(rows, rank, order[..c], j);
    SharesAreFair(Lengths(groups), c, i, j);
    GroupMember(rows, rank, other);
  }
}
