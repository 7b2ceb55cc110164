/** The score-based reallocation of algorithm/tx2graph.go, algorithm.go and allocation.go:
    a weighted graph of the transactions, scores of accounts in shards refined in place,
    and the shard of the highest score for each account. Scores are real numbers here,
    where the program rounds to float64. */
module PageRank {
  import opened Selections

  datatype Tx = Tx(from: string, to: string)

  type Row = map<string, int>
  type Network = map<string, Row>
  type Points = map<string, seq<real>>

  // ---------------------------------------------------------------------------
  // The graph of the transactions

  /** How often a and b meet in the transactions, counted from the side of a: a transfer
      of a to itself counts twice. */
  function Meetings(txs: seq<Tx>, a: string, b: string): nat {
    if txs == [] then 0 else
    var tx := txs[|txs| - 1];
    Meetings(txs[..|txs| - 1], a, b) + (if tx.from == a && tx.to == b then 1 else 0)
    + if tx.to == a && tx.from == b then 1 else 0
  }

  lemma {:induction false} MeetingsAreMutual(txs: seq<Tx>, a: string, b: string)
    ensures Meetings(txs, a, b) == Meetings(txs, b, a)
  {
    if txs != [] { MeetingsAreMutual(txs[..|txs| - 1], a, b); }
  }

  function Between(a: string, b: string): Tx -> bool {
    (tx: Tx) => tx.from == a && tx.to == b
  }

  /** The transfers of either direction. */
  lemma {:induction false} MeetingsCounted(txs: seq<Tx>, a: string, b: string)
    ensures Meetings(txs, a, b) == |Filter(txs, Between(a, b))| + |Filter(txs, Between(b, a))|
  {
    if txs != [] { MeetingsCounted(txs[..|txs| - 1], a, b); }
  }

  /** The addresses in the order in which they first occur. */
  function Mentioned(txs: seq<Tx>): seq<string> {
    if txs == [] then [] else
    var tx := txs[|txs| - 1];
    WithAddress(WithAddress(Mentioned(txs[..|txs| - 1]), tx.from), tx.to)
  }

  function WithAddress(addrs: seq<string>, a: string): seq<string> {
    if a in addrs then addrs else addrs + [a]
  }

  function Members(addrs: seq<string>): set<string> {
    set a | a in addrs
  }

  ghost predicate Distinct(addrs: seq<string>) {
    forall i, j :: 0 <= i < j < |addrs| ==> addrs[i] != addrs[j]
  }

  lemma {:induction false} MentionedOnce(txs: seq<Tx>)
    ensures Distinct(Mentioned(txs))
  {
    if txs != [] { MentionedOnce(txs[..|txs| - 1]); }
  }

  /** The addresses of the transactions, each sender before its recipient. */
  function Occurrences(txs: seq<Tx>): seq<string> {
    if txs == [] then [] else
    Occurrences(txs[..|txs| - 1]) + [txs[|txs| - 1].from] + [txs[|txs| - 1].to]
  }

  /** The addresses come in the order in which they first occur, a sender before its
      recipient. */
  lemma {:induction false} MentionedInOrder(txs: seq<Tx>) returns (at: seq<int>)
    ensures FirstAt(Occurrences(txs), Mentioned(txs), at)
  {
    if txs == [] {
      at := [];
    } else {
      hide FirstAt;
      var rest, tx := txs[..|txs| - 1], txs[|txs| - 1];
      var all := Occurrences(rest);
      at := MentionedInOrder(rest);
      at := NextOccurrence(all, tx.from, Mentioned(rest), at);
      at := NextOccurrence(all + [tx.from], tx.to, WithAddress(Mentioned(rest), tx.from), at);
    }
  }

  lemma NextOccurrence(all: seq<string>, a: string, addrs: seq<string>, at: seq<int>) returns (more: seq<int>)
    requires FirstAt(all, addrs, at)
    ensures FirstAt(all + [a], WithAddress(addrs, a), more)
  {
    hide FirstAt;
    if a in addrs {
      more := at;
      MetAgain(all, a, addrs, at);
    } else {
      more := at + [|all|];
      MetFirst(all, a, addrs, at);
    }
  }

  /** The weight of b in the row of a. */
  function Weight(graph: Network, a: string, b: string): int {
    if a in graph && b in graph[a] then graph[a][b] else 0
  }

  /** The graph has a row for each address, and in it the number of meetings with each
      address met and no other entry. */
  ghost predicate Records(graph: Network, txs: seq<Tx>) {
    && graph.Keys == Members(Mentioned(txs))
    && (forall a, b :: Weight(graph, a, b) == Meetings(txs, a, b))
    && (forall a, b :: a in graph && b in graph[a] ==> Weight(graph, a, b) > 0)
  }

  function RowOf(graph: Network, a: string): Row {
    if a in graph then graph[a] else map[]
  }

  function Met(row: Row, b: string): Row {
    row[b := if b in row then row[b] + 1 else 1]
  }

  /** The graph after one more meeting of a with b, counted from the side of a. */
  function Meets(graph: Network, a: string, b: string): Network {
    graph[a := Met(RowOf(graph, a), b)]
  }

  lemma OneMeeting(graph: Network, x: string, y: string)
    requires forall a, b :: Weight(graph, a, b) >= 0
    requires forall a, b :: a in graph && b in graph[a] ==> Weight(graph, a, b) > 0
    ensures
      var g := Meets(graph, x, y);
      && g.Keys == graph.Keys + {x}
      && (forall a, b :: Weight(g, a, b) == Weight(graph, a, b) + if a == x && b == y then 1 else 0)
      && (forall a, b :: a in g && b in g[a] ==> Weight(g, a, b) > 0)
  {
  }

  lemma OneMoreTx(txs: seq<Tx>, tx: Tx)
    ensures Mentioned(txs + [tx]) == WithAddress(WithAddress(Mentioned(txs), tx.from), tx.to)
    ensures forall a, b :: Meetings(txs + [tx], a, b) == Meetings(txs, a, b)
              + (if tx.from == a && tx.to == b then 1 else 0) + if tx.to == a && tx.from == b then 1 else 0
  {
    assert (txs + [tx])[..|txs|] == txs;
  }

  lemma RecordsGrow(graph: Network, txs: seq<Tx>, tx: Tx)
    requires Records(graph, txs)
    ensures Records(Meets(Meets(graph, tx.from, tx.to), tx.to, tx.from), txs + [tx])
  {
    hide Meets, Weight, Meetings, Mentioned;
    OneMoreTx(txs, tx);
    OneMeeting(graph, tx.from, tx.to);
    OneMeeting(Meets(graph, tx.from, tx.to), tx.to, tx.from);
  }

  method Tx2Graph(txs: seq<Tx>) returns (graph: Network, addrs: seq<string>)
    ensures Records(graph, txs) && addrs == Mentioned(txs)
  {
    hide Records, Meetings, Mentioned;
    graph, addrs := map[], [];
    var exist: set<string> := {};
    NothingMentioned();
    for i := 0 to |txs|
      invariant Records(graph, txs[..i]) && addrs == Mentioned(txs[..i]) && exist == Members(addrs)
    {
      var from, to := txs[i].from, txs[i].to;
      RecordsGrow(graph, txs[..i], txs[i]);
      OneMoreTx(txs[..i], txs[i]);
      assert txs[..i + 1] == txs[..i] + [txs[i]];
      ghost var before := graph;
      if from !in graph {
        graph := graph[from := map[]];
      }
      graph := graph[from := graph[from][to := if to !in graph[from] then 1 else graph[from][to] + 1]];
      assert graph == Meets(before, from, to);
      if to !in graph {
        graph := graph[to := map[]];
      }
      graph := graph[to := graph[to][from := if from !in graph[to] then 1 else graph[to][from] + 1]];
      assert graph == Meets(Meets(before, from, to), to, from);
      if from !in exist {
        exist := exist + {from};
        addrs := addrs + [from];
      }
      if to !in exist {
        exist := exist + {to};
        addrs := addrs + [to];
      }
    }
    assert txs[..|txs|] == txs;
  }

  lemma NothingMentioned()
    ensures Records(map[], []) && Mentioned([]) == []
  {
  }

  // ---------------------------------------------------------------------------
  // Weighted averages

  /** The sum of the terms of these keys, in some order. */
  ghost function Sum(terms: map<string, real>, keys: set<string>): real
    requires keys <= terms.Keys
    decreases |keys|
  {
    if keys == {} then 0.0 else
    var b :| b in keys;
    terms[b] + Sum(terms, keys - {b})
  }

  /** It does not depend on the order in which the keys are taken. */
  lemma {:induction false} AnyOrder(terms: map<string, real>, keys: set<string>, b: string)
    requires keys <= terms.Keys && b in keys
    ensures Sum(terms, keys) == terms[b] + Sum(terms, keys - {b})
    decreases |keys|
  {
    var c :| c in keys && Sum(terms, keys) == terms[c] + Sum(terms, keys - {c});
    if b != c {
      AnyOrder(terms, keys - {c}, b);
      AnyOrder(terms, keys - {b}, c);
      assert keys - {c} - {b} == keys - {b} - {c};
    }
  }

  // ---------------------------------------------------------------------------
  // Scores

  function Point(points: Points, a: string, k: int): real {
    if a in points && 0 <= k < |points[a]| then points[a][k] else 0.0
  }

  function Times(x: real, y: real): real {
    x * y
  }

  lemma Share(a: real, x: real)
    requires 0.0 <= a && 0.0 <= x <= 1.0
    ensures 0.0 <= Times(a, x) <= a
    ensures a > 0.0 && x > 0.0 ==> Times(a, x) > 0.0
  {
    NotNegative(a, x);
    NotNegative(a, 1.0 - x);
    assert a * (1.0 - x) == a - a * x;
  }

  lemma NotNegative(a: real, b: real)
    requires a >= 0.0 && b >= 0.0
    ensures a * b >= 0.0 && (a > 0.0 && b > 0.0 ==> a * b > 0.0)
  {
  }

  function WithPoint(points: Points, a: string, k: int, x: real): Points {
    if a in points && 0 <= k < |points[a]| then points[a := points[a][k := x]] else points
  }

  /** Every address has a score in every shard. */
  ghost predicate Shaped(points: Points, addrs: set<string>, shardNum: nat) {
    points.Keys == addrs && forall a :: a in points ==> |points[a]| == shardNum
  }

  /** Scores are from 0 to 1. */
  ghost predicate InRange(points: Points) {
    forall a, k :: 0.0 <= Point(points, a, k) <= 1.0
  }

  /** What the neighbours b of a row contribute: weight times score. */
  ghost function Terms(row: Row, points: Points, shard: int): (terms: map<string, real>)
    ensures terms.Keys == row.Keys
  {
    map b | b in row :: Times(row[b] as real, Point(points, b, shard))
  }

  ghost function WeightTerms(row: Row): (terms: map<string, real>)
    ensures terms.Keys == row.Keys
  {
    map b | b in row :: row[b] as real
  }

  /** The average score of the neighbours of a row, by weight. */
  ghost function Average(row: Row, points: Points, shard: int): real {
    var weight := Sum(WeightTerms(row), row.Keys);
    if weight == 0.0 then 0.0 else Sum(Terms(row, points, shard), row.Keys) / weight
  }

  ghost predicate Positive(row: Row) {
    row != map[] && forall b :: b in row ==> row[b] > 0
  }

  lemma {:induction false} SumIsPositive(terms: map<string, real>, keys: set<string>)
    requires keys <= terms.Keys && forall b :: b in keys ==> terms[b] > 0.0
    ensures Sum(terms, keys) >= 0.0 && (keys != {} ==> Sum(terms, keys) > 0.0)
    decreases |keys|
  {
    if keys != {} {
      var b :| b in keys;
      AnyOrder(terms, keys, b);
      SumIsPositive(terms, keys - {b});
    }
  }

  lemma {:induction false} SumBetween(terms: map<string, real>, high: map<string, real>, keys: set<string>)
    requires keys <= terms.Keys && keys <= high.Keys
    requires forall b :: b in keys ==> 0.0 <= terms[b] <= high[b]
    ensures 0.0 <= Sum(terms, keys) <= Sum(high, keys)
    decreases |keys|
  {
    if keys != {} {
      var b :| b in keys;
      AnyOrder(terms, keys, b);
      AnyOrder(high, keys, b);
      SumBetween(terms, high, keys - {b});
    }
  }

  lemma Ratio(x: real, y: real)
    requires 0.0 <= x <= y && y > 0.0
    ensures 0.0 <= x / y <= 1.0
  {
  }

  lemma PositiveWeight(row: Row)
    requires Positive(row)
    ensures Sum(WeightTerms(row), row.Keys) > 0.0
  {
    hide Sum;
    SumIsPositive(WeightTerms(row), row.Keys);
  }

  /** An average of scores is a score. */
  lemma AverageIsScore(row: Row, points: Points, shard: int)
    requires InRange(points) && Positive(row)
    ensures 0.0 <= Average(row, points, shard) <= 1.0
  {
    hide Sum, Point, Times;
    forall b | b in row ensures 0.0 <= Terms(row, points, shard)[b] <= WeightTerms(row)[b] {
      assert 0.0 <= Point(points, b, shard) <= 1.0;
      Share(row[b] as real, Point(points, b, shard));
    }
    SumBetween(Terms(row, points, shard), WeightTerms(row), row.Keys);
    PositiveWeight(row);
    Ratio(Sum(Terms(row, points, shard), row.Keys), Sum(WeightTerms(row), row.Keys));
  }

  lemma OneMoreTerm(row: Row, points: Points, shard: int, b: string, met: set<string>)
    requires b in row && b !in met && met <= row.Keys
    ensures Sum(Terms(row, points, shard), met + {b}) ==
            Sum(Terms(row, points, shard), met) + Times(row[b] as real, Point(points, b, shard))
    ensures Sum(WeightTerms(row), met + {b}) == Sum(WeightTerms(row), met) + row[b] as real
  {
    AnyOrder(Terms(row, points, shard), met + {b}, b);
    AnyOrder(WeightTerms(row), met + {b}, b);
    assert met + {b} - {b} == met;
  }

  lemma NoTerm(terms: map<string, real>)
    ensures Sum(terms, {}) == 0.0
  {
  }

  /** The average, whatever the order in which the neighbours are visited; those without
      weight are not looked up. Some weight there must be: without any the quotient is no
      number. */
  method SumPoints(out: Row, points: Points, shard: nat) returns (average: real)
    requires Sum(WeightTerms(out), out.Keys) != 0.0
    requires forall a :: a in out && out[a] != 0 ==> a in points && shard < |points[a]|
    ensures average == Average(out, points, shard)
  {
    hide Sum, Terms, WeightTerms;
    var total, count := 0.0, 0;
    var left := out.Keys;
    ghost var met: set<string> := {};
    NoTerm(Terms(out, points, shard));
    NoTerm(WeightTerms(out));
    while left != {}
      invariant left !! met && left + met == out.Keys
      invariant total == Sum(Terms(out, points, shard), met)
      invariant count as real == Sum(WeightTerms(out), met)
    {
      var i :| i in left;
      OneMoreTerm(out, points, shard, i, met);
      if out[i] != 0 {
        total := total + Times(out[i] as real, points[i][shard]);
        count := count + out[i];
      }
      left, met := left - {i}, met + {i};
    }
    assert met == out.Keys;
    average := total / count as real;
  }

  // ---------------------------------------------------------------------------
  // Refinement of the scores

  datatype Setup = Setup(graph: Network, addrs: seq<string>, addr2shard: map<string, int>, lambda: real,
                         shardNum: nat)

  /** Every address has a row of positive weights on addresses, and a shard. */
  ghost predicate Ready(s: Setup) {
    && s.graph.Keys == Members(s.addrs)
    && (forall a :: a in s.graph ==> Positive(s.graph[a]) && s.graph[a].Keys <= Members(s.addrs))
    && (forall a :: a in s.addr2shard ==> 0 <= s.addr2shard[a] < s.shardNum)
    && Members(s.addrs) <= s.addr2shard.Keys
    && 0.0 <= s.lambda < 1.0
  }

  function Residents(addr2shard: map<string, int>, k: int): set<string> {
    set a | a in addr2shard && addr2shard[a] == k
  }

  function Home(s: Setup, a: string): int {
    if a in s.addr2shard then s.addr2shard[a] else 0
  }

  /** What an account is worth to its own shard before any neighbour counts. */
  function Base(s: Setup, a: string): real {
    var n := |Residents(s.addr2shard, Home(s, a))|;
    if n == 0 then 0.0 else 1.0 / n as real
  }

  lemma BaseIsScore(s: Setup, a: string)
    requires a in s.addr2shard
    ensures 0.0 < Base(s, a) <= 1.0
    ensures |Residents(s.addr2shard, s.addr2shard[a])| > 0
  {
    assert a in Residents(s.addr2shard, s.addr2shard[a]);
  }

  /** The score of an account in one shard: a share of its base in its own shard, and a
      share of the average score of its neighbours. */
  ghost function Score(s: Setup, points: Points, a: string, shard: int): real {
    Times(1.0 - s.lambda, if Home(s, a) == shard then Base(s, a) else 0.0)
    + Times(s.lambda, Average(RowOf(s.graph, a), points, shard))
  }

  /** The least an account scores in its own shard. */
  function Least(s: Setup, a: string): real {
    Times(1.0 - s.lambda, Base(s, a))
  }

  lemma ScoreIsScore(s: Setup, points: Points, a: string, shard: int)
    requires Ready(s) && InRange(points) && a in s.graph
    ensures 0.0 <= Score(s, points, a, shard) <= 1.0
    ensures shard == Home(s, a) ==> Score(s, points, a, shard) >= Least(s, a) > 0.0
  {
    hide Average, Base, InRange, Times, Positive;
    AverageIsScore(s.graph[a], points, shard);
    BaseIsScore(s, a);
    Share(s.lambda, Average(s.graph[a], points, shard));
    Share(1.0 - s.lambda, if Home(s, a) == shard then Base(s, a) else 0.0);
  }

  /** The scores after the first n shards of an account, each seeing the ones before. */
  ghost function ShardsRefined(s: Setup, points: Points, a: string, n: nat): Points {
    if n == 0 then points else
    var p := ShardsRefined(s, points, a, n - 1);
    WithPoint(p, a, n - 1, Score(s, p, a, n - 1))
  }

  /** The scores after the first n accounts. */
  ghost function AccountsRefined(s: Setup, points: Points, n: nat): Points
    requires n <= |s.addrs|
  {
    if n == 0 then points else
    ShardsRefined(s, AccountsRefined(s, points, n - 1), s.addrs[n - 1], s.shardNum)
  }

  function Zero(s: Setup): Points {
    map a | a in s.addrs :: seq(s.shardNum, _ => 0.0)
  }

  /** The scores after n iterations. */
  ghost function Refined(s: Setup, n: nat): Points {
    if n == 0 then Zero(s) else AccountsRefined(s, Refined(s, n - 1), |s.addrs|)
  }

  lemma PointSet(points: Points, addrs: set<string>, shardNum: nat, a: string, k: int, x: real)
    requires Shaped(points, addrs, shardNum) && a in addrs && 0 <= k < shardNum
    ensures Shaped(WithPoint(points, a, k, x), addrs, shardNum)
    ensures Point(WithPoint(points, a, k, x), a, k) == x
    ensures forall b, j :: b != a || j != k ==> Point(WithPoint(points, a, k, x), b, j) == Point(points, b, j)
  {
  }

  lemma {:induction false} ShardsStay(s: Setup, points: Points, a: string, n: nat)
    requires Ready(s) && Shaped(points, s.graph.Keys, s.shardNum) && InRange(points)
    requires a in s.graph && n <= s.shardNum
    ensures Shaped(ShardsRefined(s, points, a, n), s.graph.Keys, s.shardNum)
    ensures InRange(ShardsRefined(s, points, a, n))
    ensures forall b, k :: b != a || k >= n ==> Point(ShardsRefined(s, points, a, n), b, k) == Point(points, b, k)
    ensures 0 <= Home(s, a) < n ==> Point(ShardsRefined(s, points, a, n), a, Home(s, a)) >= Least(s, a)
  {
    hide Ready, Shaped, Score, Home, Least, Point, WithPoint;
    if n > 0 {
      ShardsStay(s, points, a, n - 1);
      var p := ShardsRefined(s, points, a, n - 1);
      ScoreIsScore(s, p, a, n - 1);
      PointSet(p, s.graph.Keys, s.shardNum, a, n - 1, Score(s, p, a, n - 1));
    }
  }

  /** Every score stays in range, and an account that was refined, or was above its least
      own score before, is so after. */
  lemma {:induction false} AccountsStay(s: Setup, points: Points, n: nat)
    requires Ready(s) && Shaped(points, s.graph.Keys, s.shardNum) && InRange(points) && n <= |s.addrs|
    ensures Shaped(AccountsRefined(s, points, n), s.graph.Keys, s.shardNum)
    ensures InRange(AccountsRefined(s, points, n))
    ensures forall i :: 0 <= i < n ==>
              Point(AccountsRefined(s, points, n), s.addrs[i], Home(s, s.addrs[i])) >= Least(s, s.addrs[i])
  {
    hide Shaped, InRange, Point, Least, Positive;
    if n > 0 {
      AccountsStay(s, points, n - 1);
      assert s.addrs[n - 1] in Members(s.addrs);
      ShardsStay(s, AccountsRefined(s, points, n - 1), s.addrs[n - 1], s.shardNum);
      assert 0 <= Home(s, s.addrs[n - 1]) < s.shardNum;
    }
  }

  /** After any number of iterations every score is from 0 to 1, and after at least one
      every account has a positive score in its own shard. */
  lemma {:induction false} ScoresStay(s: Setup, n: nat)
    requires Ready(s)
    ensures Shaped(Refined(s, n), s.graph.Keys, s.shardNum) && InRange(Refined(s, n))
    ensures n > 0 ==> forall a :: a in s.graph ==> Point(Refined(s, n), a, s.addr2shard[a]) >= Least(s, a) > 0.0
  {
    hide Positive, Least;
    if n > 0 {
      ScoresStay(s, n - 1);
      AccountsStay(s, Refined(s, n - 1), |s.addrs|);
      hide Shaped, InRange, Point;
      forall a | a in s.graph ensures Point(Refined(s, n), a, s.addr2shard[a]) >= Least(s, a) > 0.0 {
        var i :| 0 <= i < |s.addrs| && s.addrs[i] == a;
        ZeroInRange(s);
        ScoreIsScore(s, Zero(s), a, Home(s, a));
      }
    }
  }

  lemma ZeroInRange(s: Setup)
    ensures InRange(Zero(s)) && Shaped(Zero(s), Members(s.addrs), s.shardNum)
  {
  }

  // ---------------------------------------------------------------------------
  // An iteration as one system of equations

  /** The average, times all weights, is the sum of weight times score. */
  lemma AverageIs(row: Row, points: Points, shard: int)
    requires Positive(row)
    ensures Times(Average(row, points, shard), Sum(WeightTerms(row), row.Keys)) ==
            Sum(Terms(row, points, shard), row.Keys)
  {
    hide Sum;
    PositiveWeight(row);
  }

  lemma ColumnOnly(row: Row, p: Points, q: Points, shard: int)
    requires forall b :: b in row ==> Point(p, b, shard) == Point(q, b, shard)
    ensures Average(row, p, shard) == Average(row, q, shard)
  {
    hide Sum, Point;
    assert Terms(row, p, shard) == Terms(row, q, shard);
  }

  /** The shards of one account do not touch each other's scores. */
  lemma {:induction false} ShardsScored(s: Setup, points: Points, a: string, n: nat, k: nat)
    requires Ready(s) && Shaped(points, s.graph.Keys, s.shardNum) && InRange(points)
    requires a in s.graph && k < n <= s.shardNum
    ensures Point(ShardsRefined(s, points, a, n), a, k) == Score(s, points, a, k)
  {
    hide Ready, Shaped, InRange, Average, Point, WithPoint, Times;
    var p := ShardsRefined(s, points, a, n - 1);
    ShardsStay(s, points, a, n - 1);
    PointSet(p, s.graph.Keys, s.shardNum, a, n - 1, Score(s, p, a, n - 1));
    if k == n - 1 {
      ColumnOnly(RowOf(s.graph, a), p, points, k);
    } else {
      ShardsScored(s, points, a, n - 1, k);
    }
  }

  /** Accounts behind the n-th keep their scores, and those before it have theirs by the
      scores at their turn. */
  lemma {:induction false} AccountsScored(s: Setup, points: Points, n: nat, j: nat, k: nat)
    requires Ready(s) && Shaped(points, s.graph.Keys, s.shardNum) && InRange(points)
    requires Distinct(s.addrs) && n <= |s.addrs| && j < |s.addrs| && k < s.shardNum
    ensures Point(AccountsRefined(s, points, n), s.addrs[j], k) ==
            if j < n then Score(s, AccountsRefined(s, points, j), s.addrs[j], k) else Point(points, s.addrs[j], k)
    decreases n
  {
    hide Shaped, InRange, Point, Score, Positive, Average;
    if n > 0 {
      var before := AccountsRefined(s, points, n - 1);
      AccountsScored(s, points, n - 1, j, k);
      AccountsStay(s, points, n - 1);
      assert s.addrs[n - 1] in Members(s.addrs);
      ShardsStay(s, before, s.addrs[n - 1], s.shardNum);
      if j == n - 1 { ShardsScored(s, before, s.addrs[j], s.shardNum, k); }
    }
  }

  /** At the i-th account's turn the accounts before it have their new scores already. */
  function Mixed(addrs: seq<string>, was: Points, now: Points, i: nat): Points
    requires i <= |addrs|
  {
    map b | b in was :: if b in addrs[..i] && b in now then now[b] else was[b]
  }

  lemma MixedPoint(s: Setup, points: Points, i: nat, b: string, k: nat)
    requires Ready(s) && Shaped(points, s.graph.Keys, s.shardNum) && InRange(points)
    requires Distinct(s.addrs) && i <= |s.addrs| && b in s.graph && k < s.shardNum
    ensures Point(AccountsRefined(s, points, i), b, k) ==
            Point(Mixed(s.addrs, points, AccountsRefined(s, points, |s.addrs|), i), b, k)
  {
    hide InRange, Score, Positive, Average;
    var j :| 0 <= j < |s.addrs| && s.addrs[j] == b;
    AccountsScored(s, points, i, j, k);
    AccountsScored(s, points, |s.addrs|, j, k);
    AccountsStay(s, points, |s.addrs|);
    assert b in s.addrs[..i] <==> j < i by {
      if j < i { assert s.addrs[..i][j] == b; }
    }
  }

  lemma ScoredAtTurn(s: Setup, n: nat, i: nat, k: nat)
    requires Ready(s) && Distinct(s.addrs) && i < |s.addrs| && k < s.shardNum
    ensures s.addrs[i] in s.graph && s.addrs[i] in s.addr2shard
    ensures Point(Refined(s, n + 1), s.addrs[i], k) ==
            Score(s, Mixed(s.addrs, Refined(s, n), Refined(s, n + 1), i), s.addrs[i], k)
  {
    hide Shaped, InRange, Point, Positive, Average, Residents, Mixed, Home, Base, Times;
    var a, before := s.addrs[i], Refined(s, n);
    assert a in Members(s.addrs);
    ScoresStay(s, n);
    AccountsScored(s, before, |s.addrs|, i, k);
    var mixed := Mixed(s.addrs, before, Refined(s, n + 1), i);
    forall b | b in s.graph[a] ensures Point(AccountsRefined(s, before, i), b, k) == Point(mixed, b, k) {
      MixedPoint(s, before, i, b, k);
    }
    ColumnOnly(s.graph[a], AccountsRefined(s, before, i), mixed, k);
  }

  /** One iteration, as the equations that its scores solve: each score is the account's
      share of its own shard and the average over its neighbours, of the new scores of the
      accounts before it and the old ones of the others. */
  lemma InPlace(s: Setup, n: nat, i: nat, k: nat)
    requires Ready(s) && Distinct(s.addrs) && i < |s.addrs| && k < s.shardNum
    ensures s.addrs[i] in s.graph && s.addrs[i] in s.addr2shard
    ensures |Residents(s.addr2shard, s.addr2shard[s.addrs[i]])| > 0
    ensures
      var a, average := s.addrs[i], AverageAtTurn(s, n, i, k);
      Point(Refined(s, n + 1), a, k) ==
      if s.addr2shard[a] == k
      then Times(1.0 - s.lambda, 1.0 / |Residents(s.addr2shard, s.addr2shard[a])| as real) + Times(s.lambda, average)
      else Times(s.lambda, average)
  {
    hide Shaped, InRange, Point, Positive, Average, Residents, Mixed, Refined;
    ScoredAtTurn(s, n, i, k);
    BaseIsScore(s, s.addrs[i]);
  }

  /** The average that the neighbours of the i-th account have at its turn. */
  ghost function AverageAtTurn(s: Setup, n: nat, i: nat, k: nat): real
    requires i < |s.addrs|
  {
    Average(RowOf(s.graph, s.addrs[i]), Mixed(s.addrs, Refined(s, n), Refined(s, n + 1), i), k)
  }

  /** The scores start from nothing. */
  lemma StartsAtZero(s: Setup, a: string, k: int)
    ensures Refined(s, 0).Keys == Members(s.addrs) && Point(Refined(s, 0), a, k) == 0.0
  {
  }

  lemma NoResident()
    ensures forall k :: |Residents(map[], k)| == 0
  {
  }

  method ShardSizes(addr2shard: map<string, int>, shardNum: nat) returns (sizes: seq<int>)
    requires forall a :: a in addr2shard ==> 0 <= addr2shard[a] < shardNum
    ensures |sizes| == shardNum && forall k :: 0 <= k < shardNum ==> sizes[k] == |Residents(addr2shard, k)|
  {
    sizes := seq(shardNum, _ => 0);
    var left := addr2shard.Keys;
    NoResident();
    hide Residents;
    ghost var met: map<string, int> := map[];
    while left != {}
      invariant met == addr2shard - left && left <= addr2shard.Keys
      invariant |sizes| == shardNum && forall k :: 0 <= k < shardNum ==> sizes[k] == |Residents(met, k)|
    {
      var a :| a in left;
      forall k
        ensures |Residents(met[a := addr2shard[a]], k)| == |Residents(met, k)| + if k == addr2shard[a] then 1 else 0
      {
        OneMoreResident(met, a, addr2shard[a], k);
      }
      sizes := sizes[addr2shard[a] := sizes[addr2shard[a]] + 1];
      left := left - {a};
      met := met[a := addr2shard[a]];
    }
    assert met == addr2shard;
  }

  lemma OneMoreResident(met: map<string, int>, a: string, shard: int, k: int)
    requires a !in met
    ensures |Residents(met[a := shard], k)| == |Residents(met, k)| + if k == shard then 1 else 0
  {
    assert Residents(met[a := shard], k) == Residents(met, k) + if k == shard then {a} else {};
  }

  method Pagerank(graph: Network, addrs: seq<string>, addr2shard: map<string, int>, lambda: real, iters: nat,
                  shardNum: nat) returns (points: Points)
    requires Ready(Setup(graph, addrs, addr2shard, lambda, shardNum))
    ensures points == Refined(Setup(graph, addrs, addr2shard, lambda, shardNum), iters)
  {
    hide *;
    ghost var s := Setup(graph, addrs, addr2shard, lambda, shardNum);
    points := map[];
    for i := 0 to |addrs|
      invariant points == map a | a in addrs[..i] :: seq(shardNum, _ => 0.0)
    {
      points := points[addrs[i] := seq(shardNum, _ => 0.0)];
    }
    assert addrs[..|addrs|] == addrs;
    ReadyParts(s);
    var shardSize := ShardSizes(addr2shard, shardNum);
    for iter := 0 to iters
      invariant points == Refined(s, iter)
    {
      ghost var before := points;
      RoundParts(s, iter);
      for i := 0 to |addrs|
        invariant points == AccountsRefined(s, before, i)
      {
        AccountParts(s, before, i);
        points := RefineAccount(s, points, addrs[i], shardSize, graph, addr2shard, lambda);
      }
    }
  }

  lemma ReadyParts(s: Setup)
    requires Ready(s)
    ensures forall a :: a in s.addr2shard ==> 0 <= s.addr2shard[a] < s.shardNum
    ensures Refined(s, 0) == map a | a in s.addrs :: seq(s.shardNum, _ => 0.0)
  {
  }

  lemma RoundParts(s: Setup, n: nat)
    requires Ready(s)
    ensures Shaped(Refined(s, n), s.graph.Keys, s.shardNum) && InRange(Refined(s, n))
    ensures AccountsRefined(s, Refined(s, n), 0) == Refined(s, n)
    ensures Refined(s, n + 1) == AccountsRefined(s, Refined(s, n), |s.addrs|)
  {
    hide Ready, Shaped, InRange;
    ScoresStay(s, n);
  }

  lemma AccountParts(s: Setup, points: Points, i: nat)
    requires Ready(s) && Shaped(points, s.graph.Keys, s.shardNum) && InRange(points) && i < |s.addrs|
    ensures s.addrs[i] in s.graph
    ensures AccountsRefined(s, points, i + 1) ==
            ShardsRefined(s, AccountsRefined(s, points, i), s.addrs[i], s.shardNum)
    ensures Shaped(AccountsRefined(s, points, i), s.graph.Keys, s.shardNum)
    ensures InRange(AccountsRefined(s, points, i))
  {
    hide Shaped, InRange, Point, Positive;
    assert s.addrs[i] in Members(s.addrs);
    AccountsStay(s, points, i);
  }

  /** The shards of one account in turn. */
  method RefineAccount(ghost s: Setup, before: Points, a: string, shardSize: seq<int>, graph: Network,
                       addr2shard: map<string, int>, lambda: real) returns (points: Points)
    requires Ready(s) && Shaped(before, s.graph.Keys, s.shardNum) && InRange(before) && a in s.graph
    requires graph == s.graph && addr2shard == s.addr2shard && lambda == s.lambda && |shardSize| == s.shardNum
    requires forall k :: 0 <= k < s.shardNum ==> shardSize[k] == |Residents(s.addr2shard, k)|
    ensures points == ShardsRefined(s, before, a, s.shardNum)
  {
    hide *;
    points := before;
    CellParts(s, before, a, 0);
    for shard := 0 to |shardSize|
      invariant points == ShardsRefined(s, before, a, shard)
    {
      CellParts(s, before, a, shard);
      var w := 0.0;
      if addr2shard[a] == shard {
        w := 1.0 / shardSize[shard] as real;
      }
      PositiveWeight(graph[a]);
      var average := SumPoints(graph[a], points, shard);
      points := points[a := points[a][shard := Times(1.0 - lambda, w) + Times(lambda, average)]];
    }
  }

  lemma CellParts(s: Setup, points: Points, a: string, shard: nat)
    requires Ready(s) && Shaped(points, s.graph.Keys, s.shardNum) && InRange(points)
    requires a in s.graph && shard <= s.shardNum
    ensures a in s.addr2shard && |Residents(s.addr2shard, s.addr2shard[a])| > 0 && Positive(s.graph[a])
    ensures ShardsRefined(s, points, a, 0) == points
    ensures
      var p := ShardsRefined(s, points, a, shard);
      var w := if s.addr2shard[a] == shard then 1.0 / |Residents(s.addr2shard, shard)| as real else 0.0;
      && a in p && s.graph[a].Keys <= p.Keys
      && (forall b :: b in p ==> |p[b]| == s.shardNum)
      && (shard < s.shardNum ==>
           ShardsRefined(s, points, a, shard + 1) ==
           p[a := p[a][shard := Times(1.0 - s.lambda, w) + Times(s.lambda, Average(s.graph[a], p, shard))]])
  {
    hide Average, InRange, Positive, Times;
    BaseIsScore(s, a);
    ShardsStay(s, points, a, shard);
  }

  // ---------------------------------------------------------------------------
  // Allocation

  /** The first shard of the highest score. */
  ghost predicate FirstHighest(row: seq<real>, shard: int) {
    && 0 <= shard < |row| && row[shard] > 0.0
    && (forall k :: 0 <= k < |row| ==> row[k] <= row[shard])
    && (forall k :: 0 <= k < shard ==> row[k] < row[shard])
  }

  /** Some score of the row is positive. */
  ghost predicate SomePositive(row: seq<real>) {
    exists k :: 0 <= k < |row| && row[k] > 0.0
  }

  /** The running maximum over one account's shards. */
  method BestShard(row: seq<real>) returns (shard: int)
    ensures if SomePositive(row) then FirstHighest(row, shard) else shard == -1
  {
    shard := -1;
    var max := 0.0;
    for k := 0 to |row|
      invariant if shard == -1 then max == 0.0 && forall j :: 0 <= j < k ==> row[j] <= 0.0
                else FirstHighest(row[..k], shard) && max == row[shard]
    {
      if row[k] > max {
        max, shard := row[k], k;
      }
    }
    assert row[..|row|] == row;
  }

  /** Each account with a positive score gets its first shard of the highest score, any
      other account none. */
  method Allocate(points: Points) returns (addr2shard: map<string, int>)
    ensures forall a :: a in addr2shard <==> a in points && SomePositive(points[a])
    ensures forall a :: a in addr2shard ==> FirstHighest(points[a], addr2shard[a])
  {
    hide SomePositive, FirstHighest;
    addr2shard := map[];
    var left := points.Keys;
    while left != {}
      invariant left <= points.Keys
      invariant forall a :: a in addr2shard <==> a in points && a !in left && SomePositive(points[a])
      invariant forall a :: a in addr2shard ==> FirstHighest(points[a], addr2shard[a])
    {
      var a :| a in left;
      left := left - {a};
      var shard := BestShard(points[a]);
      FirstHighestIs(points[a], shard);
      if shard >= 0 {
        addr2shard := addr2shard[a := shard];
      }
    }
  }

  lemma FirstHighestIs(row: seq<real>, shard: int)
    ensures FirstHighest(row, shard) ==> shard >= 0
  {
  }

  // ---------------------------------------------------------------------------
  // The whole reallocation

  lemma {:induction false} MentionedMeets(txs: seq<Tx>, a: string) returns (b: string)
    requires a in Mentioned(txs)
    ensures Meetings(txs, a, b) > 0
  {
    var tx := txs[|txs| - 1];
    if a == tx.from {
      b := tx.to;
    } else if a == tx.to {
      b := tx.from;
    } else {
      b := MentionedMeets(txs[..|txs| - 1], a);
    }
  }

  /** The graph of the transactions gives every address a neighbour to be scored by. */
  lemma GraphIsReady(graph: Network, txs: seq<Tx>, addr2shard: map<string, int>, lambda: real, shardNum: nat)
    requires Records(graph, txs) && 0.0 <= lambda < 1.0
    requires Members(Mentioned(txs)) <= addr2shard.Keys
    requires forall a :: a in addr2shard ==> 0 <= addr2shard[a] < shardNum
    ensures Ready(Setup(graph, Mentioned(txs), addr2shard, lambda, shardNum))
  {
    hide Meetings, Mentioned;
    forall a | a in graph ensures Positive(graph[a]) && graph[a].Keys <= graph.Keys {
      var b := MentionedMeets(txs, a);
      assert Weight(graph, a, b) > 0;
      forall c | c in graph[a] ensures c in graph && graph[a][c] > 0 {
        MeetingsAreMutual(txs, a, c);
        assert Weight(graph, a, c) > 0 && Weight(graph, c, a) > 0;
      }
    }
  }

  function NewShard(before: map<string, int>, after: map<string, int>): string -> bool {
    a => a in before && a in after && before[a] != after[a]
  }

  lemma NewShardIs(before: map<string, int>, after: map<string, int>, a: string)
    ensures NewShard(before, after)(a) <==> a in before && a in after && before[a] != after[a]
  {
  }

  /** After an iteration every account has a positive score to be allocated by. */
  lemma EveryoneScores(s: Setup, n: nat)
    requires Ready(s) && n >= 1
    ensures Refined(s, n).Keys == Members(s.addrs)
    ensures forall a :: a in Refined(s, n) ==> SomePositive(Refined(s, n)[a])
  {
    hide Positive, InRange, Least, Refined;
    ScoresStay(s, n);
    forall a | a in Refined(s, n) ensures SomePositive(Refined(s, n)[a]) {
      assert Point(Refined(s, n), a, s.addr2shard[a]) > 0.0;
      assert Refined(s, n)[a][s.addr2shard[a]] > 0.0;
    }
  }

  /** The new shards without the ones seen that are not new. */
  function Kept(seen: seq<string>, before: map<string, int>, after: map<string, int>): map<string, int> {
    map a | a in after && (a in seen && a in before ==> after[a] != before[a]) :: after[a]
  }

  lemma OneMoreKept(addrs: seq<string>, i: nat, before: map<string, int>, after: map<string, int>)
    requires Distinct(addrs) && i < |addrs| && addrs[i] in before && addrs[i] in after
    ensures addrs[i] in Kept(addrs[..i], before, after)
    ensures Kept(addrs[..i], before, after)[addrs[i]] == after[addrs[i]]
    ensures Kept(addrs[..i + 1], before, after) == if before[addrs[i]] != after[addrs[i]]
            then Kept(addrs[..i], before, after) else Kept(addrs[..i], before, after) - {addrs[i]}
  {
    assert addrs[i] !in addrs[..i] && addrs[..i + 1] == addrs[..i] + [addrs[i]];
  }

  lemma AllKept(addrs: seq<string>, before: map<string, int>, after: map<string, int>)
    requires after.Keys == Members(addrs) <= before.Keys
    ensures Kept(addrs, before, after) == map a | a in after && after[a] != before[a] :: after[a]
    ensures Kept([], before, after) == after
  {
  }

  lemma MembersAre(addrs: seq<string>)
    ensures forall a :: a in Members(addrs) <==> a in addrs
  {
  }

  /** Reallocates the accounts of some transactions: every one of them gets the first of
      its highest-scoring shards, and the two results list those for which that is a
      change. */
  method Reallocate(txs: seq<Tx>, account2shard: map<string, int>, lambda: real, iters: nat, shardNum: nat)
    returns (newAddr2shard: map<string, int>, newAddrs: seq<string>, ghost s: Setup, ghost best: map<string, int>)
    requires 0.0 <= lambda < 1.0 && iters >= 1
    requires Members(Mentioned(txs)) <= account2shard.Keys
    requires forall a :: a in account2shard ==> 0 <= account2shard[a] < shardNum
    ensures Records(s.graph, txs) && s == Setup(s.graph, Mentioned(txs), account2shard, lambda, shardNum)
    ensures best.Keys == Members(Mentioned(txs)) == Refined(s, iters).Keys
    ensures forall a :: a in best ==> FirstHighest(Refined(s, iters)[a], best[a])
    ensures newAddrs == Filter(Mentioned(txs), NewShard(account2shard, best))
    ensures newAddr2shard == map a | a in best && best[a] != account2shard[a] :: best[a]
    ensures forall a :: a in newAddrs <==> a in newAddr2shard
    ensures forall a :: a in newAddr2shard ==> a in Mentioned(txs) && newAddr2shard[a] != account2shard[a]
  {
    hide *;
    var graph, addrs := Tx2Graph(txs);
    s := Setup(graph, addrs, account2shard, lambda, shardNum);
    GraphIsReady(graph, txs, account2shard, lambda, shardNum);
    var points := Pagerank(graph, addrs, account2shard, lambda, iters, shardNum);
    newAddr2shard := Allocate(points);
    EveryoneScores(s, iters);
    best := newAddr2shard;
    newAddrs := [];
    AllOrNone([], NewShard(account2shard, best));
    AllKept(addrs, account2shard, best);
    MembersAre(addrs);
    MentionedOnce(txs);
    for i := 0 to |addrs|
      invariant newAddrs == Filter(addrs[..i], NewShard(account2shard, best))
      invariant newAddr2shard == Kept(addrs[..i], account2shard, best)
    {
      OneMoreFiltered(addrs[..i], addrs[i], NewShard(account2shard, best));
      assert addrs[..i + 1] == addrs[..i] + [addrs[i]];
      NewShardIs(account2shard, best, addrs[i]);
      OneMoreKept(addrs, i, account2shard, best);
      var acc := addrs[i];
      var now := if acc in newAddr2shard then newAddr2shard[acc] else 0;
      if account2shard[acc] != now {
        newAddrs := newAddrs + [acc];
      } else {
        newAddr2shard := newAddr2shard - {acc};
      }
    }
    assert addrs[..|addrs|] == addrs;
    AllOrNone(addrs, NewShard(account2shard, best));
    forall a ensures a in newAddrs <==> a in newAddr2shard { NewShardIs(account2shard, best, a); }
  }
}
