/** Constrained label propagation of algorithm/partition_CLPA.go: the counters of edges
    per shard, kept up to date move by move, against their meaning and against a
    computation from scratch. */
module Clpa {
  import opened Graph

  const INT_MAX := 0x7fffffff

  /** The shard of a vertex; a missing entry reads as 0. */
  function Shard(p: map<Vertex, int>, v: Vertex): int {
    if v in p then p[v] else 0
  }

  // ---------------------------------------------------------------------------
  // What the counters mean

  /** The number of edges with an end in shard k. */
  function Touching(es: seq<Edge>, p: map<Vertex, int>, k: int): nat {
    if es == [] then 0 else
    var e := es[|es| - 1];
    Touching(es[..|es| - 1], p, k) + if Shard(p, e.u) == k || Shard(p, e.v) == k then 1 else 0
  }

  /** The number of edges between different shards. */
  function Crossing(es: seq<Edge>, p: map<Vertex, int>): nat {
    if es == [] then 0 else
    var e := es[|es| - 1];
    Crossing(es[..|es| - 1], p) + if Shard(p, e.u) != Shard(p, e.v) then 1 else 0
  }

  /** The number of edges from v to itself. */
  function SelfLoops(es: seq<Edge>, v: Vertex): nat {
    if es == [] then 0 else
    var e := es[|es| - 1];
    SelfLoops(es[..|es| - 1], v) + if e.u == v && e.v == v then 1 else 0
  }

  /** The number of listed vertices in shard k. */
  function Population(vs: seq<Vertex>, p: map<Vertex, int>, k: int): nat {
    if vs == [] then 0 else
    Population(vs[..|vs| - 1], p, k) + if Shard(p, vs[|vs| - 1]) == k then 1 else 0
  }

  /** The smallest of m and the numbers listed. */
  function MinFrom(m: int, s: seq<int>): int {
    if s == [] then m else
    var least := MinFrom(m, s[..|s| - 1]);
    if least > s[|s| - 1] then s[|s| - 1] else least
  }

  lemma {:induction false} MinFromIs(m: int, s: seq<int>)
    ensures MinFrom(m, s) <= m && forall i :: 0 <= i < |s| ==> MinFrom(m, s) <= s[i]
    ensures MinFrom(m, s) == m || exists i :: 0 <= i < |s| && MinFrom(m, s) == s[i]
  {
    if s != [] {
      var front := s[..|s| - 1];
      MinFromIs(m, front);
      forall i | 0 <= i < |s| ensures MinFrom(m, s) <= s[i] {
        if i < |front| { assert s[i] == front[i]; }
      }
      if MinFrom(m, front) != m {
        var i :| 0 <= i < |front| && MinFrom(m, front) == front[i];
        assert s[i] == front[i];
      }
    }
  }

  /** Starting from the first number or from the largest int32 gives the same minimum
      exactly when some number is at most that. */
  lemma MinAgrees(s: seq<int>)
    requires |s| > 0
    ensures MinFrom(s[0], s) == MinFrom(INT_MAX, s) <==> exists i :: 0 <= i < |s| && s[i] <= INT_MAX
  {
    MinFromIs(s[0], s);
    MinFromIs(INT_MAX, s);
  }

  // ---------------------------------------------------------------------------
  // Computing the counters from scratch

  /** How many of the listed neighbours of a vertex in shard a are in shard k, when k is
      another shard and when it is the same one. */
  function Entering(us: seq<Vertex>, p: map<Vertex, int>, a: int, k: int): nat {
    if us == [] then 0 else
    Entering(us[..|us| - 1], p, a, k) + if a != k && Shard(p, us[|us| - 1]) == k then 1 else 0
  }

  function Staying(us: seq<Vertex>, p: map<Vertex, int>, a: int, k: int): nat {
    if us == [] then 0 else
    Staying(us[..|us| - 1], p, a, k) + if a == k && Shard(p, us[|us| - 1]) == k then 1 else 0
  }

  lemma NoNeighbor(p: map<Vertex, int>, a: int, k: int)
    ensures Entering([], p, a, k) == 0 == Staying([], p, a, k)
  {
  }

  lemma OneMoreNeighbor(us: seq<Vertex>, u: Vertex, p: map<Vertex, int>, a: int, k: int)
    ensures Entering(us + [u], p, a, k) == Entering(us, p, a, k) + if a != k && Shard(p, u) == k then 1 else 0
    ensures Staying(us + [u], p, a, k) == Staying(us, p, a, k) + if a == k && Shard(p, u) == k then 1 else 0
  {
    assert (us + [u])[..|us|] == us;
  }

  lemma OneMoreEdgeListed(us: seq<Vertex>, e: Edge, v: Vertex, p: map<Vertex, int>, a: int, k: int)
    ensures Entering(Extended(us, e, v), p, a, k) == Entering(us, p, a, k)
            + (if e.v == v && a != k && Shard(p, e.u) == k then 1 else 0)
            + if !e.oneWay && e.u == v && a != k && Shard(p, e.v) == k then 1 else 0
    ensures Staying(Extended(us, e, v), p, a, k) == Staying(us, p, a, k)
            + (if e.v == v && a == k && Shard(p, e.u) == k then 1 else 0)
            + if !e.oneWay && e.u == v && a == k && Shard(p, e.v) == k then 1 else 0
  {
  }

  /** The same counts, over the lists of the vertices in s, edge by edge. */
  function EnteringFrom(es: seq<Edge>, p: map<Vertex, int>, s: set<Vertex>, k: int): nat {
    if es == [] then 0 else
    var e := es[|es| - 1];
    EnteringFrom(es[..|es| - 1], p, s, k)
    + (if e.v in s && Shard(p, e.v) != k && Shard(p, e.u) == k then 1 else 0)
    + if !e.oneWay && e.u in s && Shard(p, e.u) != k && Shard(p, e.v) == k then 1 else 0
  }

  function StayingFrom(es: seq<Edge>, p: map<Vertex, int>, s: set<Vertex>, k: int): nat {
    if es == [] then 0 else
    var e := es[|es| - 1];
    StayingFrom(es[..|es| - 1], p, s, k)
    + (if e.v in s && Shard(p, e.v) == k && Shard(p, e.u) == k then 1 else 0)
    + if !e.oneWay && e.u in s && Shard(p, e.u) == k && Shard(p, e.v) == k then 1 else 0
  }

  lemma {:induction false} OneMoreEntering(es: seq<Edge>, p: map<Vertex, int>, s: set<Vertex>, v: Vertex, k: int)
    requires v !in s
    ensures EnteringFrom(es, p, s + {v}, k) ==
            EnteringFrom(es, p, s, k) + Entering(Adj(es, v), p, Shard(p, v), k)
  {
    hide Entering, Staying, StayingFrom;
    if es == [] {
      NoNeighbor(p, Shard(p, v), k);
    } else {
      OneMoreEntering(es[..|es| - 1], p, s, v, k);
      OneMoreEdgeListed(Adj(es[..|es| - 1], v), es[|es| - 1], v, p, Shard(p, v), k);
    }
  }

  lemma {:induction false} OneMoreStaying(es: seq<Edge>, p: map<Vertex, int>, s: set<Vertex>, v: Vertex, k: int)
    requires v !in s
    ensures StayingFrom(es, p, s + {v}, k) ==
            StayingFrom(es, p, s, k) + Staying(Adj(es, v), p, Shard(p, v), k)
  {
    hide Entering, Staying, EnteringFrom;
    if es == [] {
      NoNeighbor(p, Shard(p, v), k);
    } else {
      OneMoreStaying(es[..|es| - 1], p, s, v, k);
      OneMoreEdgeListed(Adj(es[..|es| - 1], v), es[|es| - 1], v, p, Shard(p, v), k);
    }
  }

  lemma OneMoreVertex(es: seq<Edge>, p: map<Vertex, int>, s: set<Vertex>, v: Vertex, k: int)
    requires v !in s
    ensures EnteringFrom(es, p, s + {v}, k) ==
            EnteringFrom(es, p, s, k) + Entering(Adj(es, v), p, Shard(p, v), k)
    ensures StayingFrom(es, p, s + {v}, k) ==
            StayingFrom(es, p, s, k) + Staying(Adj(es, v), p, Shard(p, v), k)
  {
    hide *;
    OneMoreEntering(es, p, s, v, k);
    OneMoreStaying(es, p, s, v, k);
  }

  /** Over all vertices, a crossing edge enters each of its two shards once and any other
      edge is met twice inside its shard. */
  lemma {:induction false} EdgesMetTwice(es: seq<Edge>, p: map<Vertex, int>, s: set<Vertex>, k: int)
    requires TwoWay(es) && Ends(es, s)
    ensures StayingFrom(es, p, s, k) % 2 == 0
    ensures EnteringFrom(es, p, s, k) + StayingFrom(es, p, s, k) / 2 == Touching(es, p, k)
  {
    if es != [] {
      assert es[|es| - 1] in es && forall e :: e in es[..|es| - 1] ==> e in es;
      EdgesMetTwice(es[..|es| - 1], p, s, k);
    }
  }

  function Total(s: seq<int>): int {
    if s == [] then 0 else Total(s[..|s| - 1]) + s[|s| - 1]
  }

  /** The ends of crossing edges in the first n shards. */
  function CrossEnds(es: seq<Edge>, p: map<Vertex, int>, n: int): nat {
    if es == [] then 0 else
    var e := es[|es| - 1];
    CrossEnds(es[..|es| - 1], p, n)
    + if Shard(p, e.u) == Shard(p, e.v) then 0
      else (if 0 <= Shard(p, e.u) < n then 1 else 0) + if 0 <= Shard(p, e.v) < n then 1 else 0
  }

  lemma {:induction false} OneMoreShard(es: seq<Edge>, p: map<Vertex, int>, s: set<Vertex>, n: nat)
    requires TwoWay(es) && Ends(es, s)
    ensures CrossEnds(es, p, n + 1) == CrossEnds(es, p, n) + EnteringFrom(es, p, s, n)
  {
    if es != [] {
      assert es[|es| - 1] in es && forall e :: e in es[..|es| - 1] ==> e in es;
      OneMoreShard(es[..|es| - 1], p, s, n);
    }
  }

  lemma {:induction false} NoShard(es: seq<Edge>, p: map<Vertex, int>)
    ensures CrossEnds(es, p, 0) == 0
  {
    if es != [] { NoShard(es[..|es| - 1], p); }
  }

  lemma {:induction false} AllShards(es: seq<Edge>, p: map<Vertex, int>, n: nat)
    requires forall e :: e in es ==> 0 <= Shard(p, e.u) < n && 0 <= Shard(p, e.v) < n
    ensures CrossEnds(es, p, n) == 2 * Crossing(es, p)
  {
    if es != [] {
      assert es[|es| - 1] in es && forall e :: e in es[..|es| - 1] ==> e in es;
      AllShards(es[..|es| - 1], p, n);
    }
  }

  /** Summed over the shards, the entering counts see every crossing edge twice. */
  lemma {:induction false} TotalEntering(es: seq<Edge>, p: map<Vertex, int>, s: set<Vertex>, entering: seq<int>, n: nat)
    requires TwoWay(es) && Ends(es, s) && n <= |entering|
    requires forall k :: 0 <= k < n ==> entering[k] == EnteringFrom(es, p, s, k)
    ensures Total(entering[..n]) == CrossEnds(es, p, n)
  {
    if n == 0 {
      NoShard(es, p);
    } else {
      TotalEntering(es, p, s, entering, n - 1);
      OneMoreShard(es, p, s, n - 1);
      assert entering[..n][..n - 1] == entering[..n - 1];
    }
  }

  // ---------------------------------------------------------------------------
  // Updating the counters after a move

  /** What one neighbour in shard c changes in the counter of shard k, and in the number
      of crossing edges, when a vertex moves from shard a to b. */
  function Change(a: int, b: int, c: int, k: int): int {
    (if k == b && c != b then 1 else 0) - if k == a && c != a then 1 else 0
  }

  function CrossChange(a: int, b: int, c: int): int {
    if c == a then 1 else if c == b then -1 else 0
  }

  function Changes(us: seq<Vertex>, p: map<Vertex, int>, a: int, b: int, k: int): int {
    if us == [] then 0 else Changes(us[..|us| - 1], p, a, b, k) + Change(a, b, Shard(p, us[|us| - 1]), k)
  }

  function CrossChanges(us: seq<Vertex>, p: map<Vertex, int>, a: int, b: int): int {
    if us == [] then 0 else CrossChanges(us[..|us| - 1], p, a, b) + CrossChange(a, b, Shard(p, us[|us| - 1]))
  }

  lemma OneMoreChange(us: seq<Vertex>, u: Vertex, p: map<Vertex, int>, a: int, b: int, k: int)
    ensures Changes(us + [u], p, a, b, k) == Changes(us, p, a, b, k) + Change(a, b, Shard(p, u), k)
    ensures CrossChanges(us + [u], p, a, b) == CrossChanges(us, p, a, b) + CrossChange(a, b, Shard(p, u))
  {
    assert (us + [u])[..|us|] == us;
  }

  lemma OneMoreEdgeMoved(us: seq<Vertex>, e: Edge, v: Vertex, p: map<Vertex, int>, a: int, b: int, k: int)
    requires !e.oneWay
    ensures Changes(Extended(us, e, v), p, a, b, k) == Changes(us, p, a, b, k)
            + (if e.u == v then Change(a, b, Shard(p, e.v), k) else 0)
            + if e.v == v then Change(a, b, Shard(p, e.u), k) else 0
    ensures CrossChanges(Extended(us, e, v), p, a, b) == CrossChanges(us, p, a, b)
            + (if e.u == v then CrossChange(a, b, Shard(p, e.v)) else 0)
            + if e.v == v then CrossChange(a, b, Shard(p, e.u)) else 0
  {
  }

  /** The same for one edge alone. */
  lemma EdgeMoves(e: Edge, p: map<Vertex, int>, v: Vertex, a: int, b: int, k: int)
    requires Shard(p, v) == a && a != b
    ensures
      var q := p[v := b];
      var touched := if Shard(p, e.u) == k || Shard(p, e.v) == k then 1 else 0;
      var touches := if Shard(q, e.u) == k || Shard(q, e.v) == k then 1 else 0;
      touches == touched + (if e.u == v then Change(a, b, Shard(q, e.v), k) else 0)
                 + (if e.v == v then Change(a, b, Shard(q, e.u), k) else 0)
                 + if e.u == v && e.v == v && (k == a || k == b) then 1 else 0
    ensures
      var q := p[v := b];
      var crossed := if Shard(p, e.u) != Shard(p, e.v) then 1 else 0;
      var crosses := if Shard(q, e.u) != Shard(q, e.v) then 1 else 0;
      crosses == crossed + (if e.u == v then CrossChange(a, b, Shard(q, e.v)) else 0)
                 + (if e.v == v then CrossChange(a, b, Shard(q, e.u)) else 0)
                 + 2 * if e.u == v && e.v == v then 1 else 0
  {
  }

  /** The changes read off the neighbours of a vertex that moved from a to b are those of
      the meaning of the counters, but for its self-loops: each leaves the counters of a
      and b one too low and the number of crossing edges two too low. */
  lemma {:induction false} MoveChanges(es: seq<Edge>, p: map<Vertex, int>, v: Vertex, a: int, b: int, k: int)
    requires TwoWay(es) && Shard(p, v) == a && a != b
    ensures Touching(es, p[v := b], k) == Touching(es, p, k) + Changes(Adj(es, v), p[v := b], a, b, k)
                                          + if k == a || k == b then SelfLoops(es, v) else 0
    ensures Crossing(es, p[v := b]) == Crossing(es, p) + CrossChanges(Adj(es, v), p[v := b], a, b)
                                       + 2 * SelfLoops(es, v)
  {
    if es != [] {
      hide Changes, CrossChanges, Extended, Shard, Change, CrossChange;
      assert es[|es| - 1] in es && forall e :: e in es[..|es| - 1] ==> e in es;
      MoveChanges(es[..|es| - 1], p, v, a, b, k);
      OneMoreEdgeMoved(Adj(es[..|es| - 1], v), es[|es| - 1], v, p[v := b], a, b, k);
      EdgeMoves(es[|es| - 1], p, v, a, b, k);
    } else {
      assert Adj(es, v) == [];
    }
  }

  lemma {:induction false} PopulationApart(vs: seq<Vertex>, p: map<Vertex, int>, v: Vertex, b: int, k: int)
    requires v !in vs
    ensures Population(vs, p[v := b], k) == Population(vs, p, k)
  {
    if vs != [] { PopulationApart(vs[..|vs| - 1], p, v, b, k); }
  }

  lemma {:induction false} PopulationMoves(vs: seq<Vertex>, p: map<Vertex, int>, v: Vertex, b: int, k: int)
    requires Distinct(vs) && v in vs
    ensures Population(vs, p[v := b], k) == Population(vs, p, k) - (if Shard(p, v) == k then 1 else 0)
                                            + if b == k then 1 else 0
  {
    var front := vs[..|vs| - 1];
    assert vs == front + [vs[|vs| - 1]];
    assert Distinct(front);
    if vs[|vs| - 1] == v {
      assert v !in front;
      PopulationApart(front, p, v, b, k);
    } else {
      PopulationMoves(front, p, v, b, k);
    }
  }

  // ---------------------------------------------------------------------------
  // Scores

  /** A score as the comparison of float64 values sees it. */
  datatype Float = NaN | NegInf | Fin(value: real) | PosInf

  predicate Less(x: Float, y: Float) {
    match (x, y)
    case (NaN, _) => false
    case (_, NaN) => false
    case (Fin(a), Fin(b)) => a < b
    case (NegInf, _) => y != NegInf
    case (_, PosInf) => x != PosInf
    case _ => false
  }

  /** What a score may depend on: the vertex, the candidate shard, and the state. */
  type Score = (Vertex, int, map<Vertex, int>, seq<int>, int) -> Float

  const FLOOR := Fin(-9999.0)

  function ScoreOf(score: Score, v: Vertex, k: int, s: Snapshot): Float {
    score(v, k, s.partition, s.edges2Shard, s.least)
  }

  /** The label a vertex is given: the first of the best-scoring shards of its
      neighbours, or its own shard when no score exceeds the floor. */
  ghost predicate Best(us: seq<Vertex>, s: Snapshot, v: Vertex, score: Score, best: int, top: Float) {
    && (|| (best == Shard(s.partition, v) && top == FLOOR)
        || (exists i :: 0 <= i < |us| && FirstBest(us, s, v, score, best, top, i)))
    && (forall u :: u in us ==> !Less(top, ScoreOf(score, v, Shard(s.partition, u), s)))
  }

  ghost predicate FirstBest(us: seq<Vertex>, s: Snapshot, v: Vertex, score: Score, best: int, top: Float, i: nat)
    requires i < |us|
  {
    && best == Shard(s.partition, us[i]) && top == ScoreOf(score, v, best, s) && Less(FLOOR, top)
    && forall j :: 0 <= j < i ==>
         var other := ScoreOf(score, v, Shard(s.partition, us[j]), s);
         other == NaN || Less(other, top)
  }

  // ---------------------------------------------------------------------------
  // Runs

  datatype Snapshot = Snapshot(partition: map<Vertex, int>, edges2Shard: seq<int>, crossing: int, least: int,
                               population: seq<int>)
  datatype Move = Move(v: Vertex, to: int)

  /** The self-loops of the vertices moved, counted once for each move. */
  function Lag(es: seq<Edge>, moves: seq<Move>): nat {
    if moves == [] then 0 else Lag(es, moves[..|moves| - 1]) + SelfLoops(es, moves[|moves| - 1].v)
  }

  /** The counters are those of the partition, but for the lag of the moves so far. */
  ghost predicate Counters(es: seq<Edge>, s: Snapshot, lag: nat) {
    && s.crossing == Crossing(es, s.partition) - 2 * lag
    && (lag == 0 ==> forall k :: 0 <= k < |s.edges2Shard| ==> s.edges2Shard[k] == Touching(es, s.partition, k))
  }

  /** The populations are the exact histogram of the partition. */
  ghost predicate Histogram(vs: seq<Vertex>, p: map<Vertex, int>, population: seq<int>) {
    forall k :: 0 <= k < |population| ==> population[k] == Population(vs, p, k)
  }

  ghost predicate InShards(p: map<Vertex, int>, shardNum: nat) {
    forall v :: v in p ==> 0 <= p[v] < shardNum
  }

  /** One move takes a vertex to its best label in another shard, is never made by the
      last vertex of a shard, and leaves the minimum over the counters. */
  ghost predicate Step(s: Snapshot, m: Move, t: Snapshot, es: seq<Edge>, vs: seq<Vertex>, score: Score) {
    && m.v in vs && m.v in s.partition
    && t.partition == s.partition[m.v := m.to]
    && s.partition[m.v] != m.to
    && (exists top :: Best(Adj(es, m.v), s, m.v, score, m.to, top))
    && 0 <= s.partition[m.v] < |s.population| && s.population[s.partition[m.v]] > 1
    && 0 <= m.to < |s.population| && t.population == Shifted(s.population, s.partition[m.v], m.to)
    && |t.edges2Shard| > 0 && t.least == MinFrom(t.edges2Shard[0], t.edges2Shard)
  }

  ghost predicate Fits(s: Snapshot, shardNum: nat, es: seq<Edge>, vs: seq<Vertex>, lag: nat) {
    && |s.edges2Shard| == shardNum == |s.population|
    && InShards(s.partition, shardNum)
    && Histogram(vs, s.partition, s.population)
    && Counters(es, s, lag)
  }

  ghost predicate AllFit(trace: seq<Snapshot>, moves: seq<Move>, shardNum: nat, es: seq<Edge>, vs: seq<Vertex>) {
    |trace| == |moves| + 1
    && forall i :: 0 <= i < |trace| ==> Fits(trace[i], shardNum, es, vs, Lag(es, moves[..i]))
  }

  ghost predicate AllSteps(trace: seq<Snapshot>, moves: seq<Move>, es: seq<Edge>, vs: seq<Vertex>, score: Score) {
    |trace| == |moves| + 1
    && forall i :: 0 <= i < |moves| ==> Step(trace[i], moves[i], trace[i + 1], es, vs, score)
  }

  /** A whole run: a snapshot before the first move and after each one. */
  ghost predicate Run(trace: seq<Snapshot>, moves: seq<Move>, shardNum: nat, es: seq<Edge>, vs: seq<Vertex>,
                      score: Score)
  {
    && AllFit(trace, moves, shardNum, es, vs)
    && AllSteps(trace, moves, es, vs, score)
    && trace[0].least == MinFrom(INT_MAX, trace[0].edges2Shard)
  }

  lemma OneMoreFits(trace: seq<Snapshot>, moves: seq<Move>, shardNum: nat, es: seq<Edge>, vs: seq<Vertex>,
                    m: Move, t: Snapshot)
    requires AllFit(trace, moves, shardNum, es, vs)
    requires Fits(t, shardNum, es, vs, Lag(es, moves) + SelfLoops(es, m.v))
    ensures AllFit(trace + [t], moves + [m], shardNum, es, vs)
  {
    hide Fits, SelfLoops, Lag;
    var ts, ms := trace + [t], moves + [m];
    OneMoreLag(es, moves, m);
    forall i | 0 <= i < |ts| ensures Fits(ts[i], shardNum, es, vs, Lag(es, ms[..i])) {
      if i < |trace| {
        assert ms[..i] == moves[..i] && ts[i] == trace[i];
      } else {
        assert ms[..i] == ms;
      }
    }
  }

  lemma OneMoreStep(trace: seq<Snapshot>, moves: seq<Move>, es: seq<Edge>, vs: seq<Vertex>, score: Score,
                    m: Move, t: Snapshot)
    requires AllSteps(trace, moves, es, vs, score) && Step(trace[|moves|], m, t, es, vs, score)
    ensures AllSteps(trace + [t], moves + [m], es, vs, score)
  {
  }

  lemma RunExtends(trace: seq<Snapshot>, moves: seq<Move>, shardNum: nat, es: seq<Edge>, vs: seq<Vertex>,
                   score: Score, m: Move, t: Snapshot)
    requires Run(trace, moves, shardNum, es, vs, score)
    requires Step(trace[|moves|], m, t, es, vs, score)
    requires Fits(t, shardNum, es, vs, Lag(es, moves) + SelfLoops(es, m.v))
    ensures Run(trace + [t], moves + [m], shardNum, es, vs, score)
    ensures (trace + [t])[|moves + [m]|] == t
  {
    hide Fits, Step, SelfLoops, MinFrom, Lag;
    assert |trace| == |moves| + 1;
    OneMoreFits(trace, moves, shardNum, es, vs, m, t);
    OneMoreStep(trace, moves, es, vs, score, m, t);
    hide AllFit, AllSteps;
    assert (trace + [t])[0] == trace[0];
  }

  lemma OneMoreLag(es: seq<Edge>, moves: seq<Move>, m: Move)
    ensures Lag(es, moves + [m]) == Lag(es, moves) + SelfLoops(es, m.v)
  {
    assert (moves + [m])[..|moves|] == moves;
  }

  // ---------------------------------------------------------------------------
  // The visits of a run

  /** A vertex is visited after the first n moves, and moved or not. */
  datatype Visit = Visit(v: Vertex, n: nat, moved: bool)

  /** How many of the first n moves are of the vertex. */
  ghost function TimesMoved(moves: seq<Move>, n: nat, v: Vertex): nat
    requires n <= |moves|
  {
    |set i | 0 <= i < n && moves[i].v == v|
  }

  /** A vertex visited is moved exactly when it has been moved fewer than 1000 times, its
      best shard is another than its own, and it is not the last one there; and then it is
      the next move, to that shard. */
  ghost predicate Visited(x: Visit, trace: seq<Snapshot>, moves: seq<Move>, es: seq<Edge>, score: Score) {
    && x.n <= |moves| && x.n < |trace| && x.v in trace[x.n].partition
    && var s, own := trace[x.n], trace[x.n].partition[x.v];
       if TimesMoved(moves, x.n, x.v) >= 1000 then !x.moved
       else exists to, top :: Best(Adj(es, x.v), s, x.v, score, to, top)
              && (x.moved <==> to != own && 0 <= own < |s.population| && s.population[own] > 1)
              && (x.moved ==> x.n < |moves| && moves[x.n] == Move(x.v, to))
  }

  function After(x: Visit): nat {
    if x.moved then x.n + 1 else x.n
  }

  /** The number of moves made before the i-th visit of a round. */
  function Before(row: seq<Visit>, from: nat, i: nat): nat
    requires i <= |row|
  {
    if i == 0 then from else After(row[i - 1])
  }

  /** The visits of the first vertices of a list, each one after the moves of those before. */
  ghost predicate Visits(row: seq<Visit>, from: nat, to: nat, vs: seq<Vertex>) {
    && |row| <= |vs|
    && (forall i :: 0 <= i < |row| ==> row[i].v == vs[i] && row[i].n == Before(row, from, i))
    && to == Before(row, from, |row|)
  }

  ghost predicate AllVisited(row: seq<Visit>, trace: seq<Snapshot>, moves: seq<Move>, es: seq<Edge>, score: Score) {
    forall i :: 0 <= i < |row| ==> Visited(row[i], trace, moves, es, score)
  }

  /** Every round visits every vertex once, in the order of the list; starts[r] moves have
      been made before round r, and no other moves are made. */
  ghost predicate Rounds(rounds: seq<seq<Visit>>, starts: seq<nat>, trace: seq<Snapshot>, moves: seq<Move>,
                         es: seq<Edge>, vs: seq<Vertex>, score: Score)
  {
    && |starts| == |rounds| + 1 && starts[0] == 0 && starts[|rounds|] == |moves|
    && forall r :: 0 <= r < |rounds| ==>
         && |rounds[r]| == |vs| && Visits(rounds[r], starts[r], starts[r + 1], vs)
         && AllVisited(rounds[r], trace, moves, es, score)
  }

  /** The rounds so far, the last of them not yet complete. */
  ghost predicate Underway(rounds: seq<seq<Visit>>, starts: seq<nat>, row: seq<Visit>, trace: seq<Snapshot>,
                           moves: seq<Move>, es: seq<Edge>, vs: seq<Vertex>, score: Score)
  {
    && |starts| == |rounds| + 1 && starts[0] == 0 && starts[|rounds|] <= |moves|
    && (forall r :: 0 <= r < |rounds| ==>
          && |rounds[r]| == |vs| && Visits(rounds[r], starts[r], starts[r + 1], vs)
          && AllVisited(rounds[r], trace, moves, es, score))
    && Visits(row, starts[|rounds|], |moves|, vs) && AllVisited(row, trace, moves, es, score)
  }

  lemma VisitedStays(x: Visit, trace: seq<Snapshot>, moves: seq<Move>, es: seq<Edge>, score: Score, t: Snapshot,
                     m: Move)
    requires Visited(x, trace, moves, es, score) && |trace| == |moves| + 1
    ensures Visited(x, trace + [t], moves + [m], es, score)
  {
    hide Best, Adj;
    assert (trace + [t])[x.n] == trace[x.n] && forall i :: 0 <= i < |moves| ==> (moves + [m])[i] == moves[i];
    assert (set i | 0 <= i < x.n && (moves + [m])[i].v == x.v) == (set i | 0 <= i < x.n && moves[i].v == x.v);
  }

  lemma AllVisitedStays(row: seq<Visit>, trace: seq<Snapshot>, moves: seq<Move>, es: seq<Edge>, score: Score,
                        t: Snapshot, m: Move)
    requires AllVisited(row, trace, moves, es, score) && |trace| == |moves| + 1
    ensures AllVisited(row, trace + [t], moves + [m], es, score)
  {
    hide Visited;
    forall i | 0 <= i < |row| ensures Visited(row[i], trace + [t], moves + [m], es, score) {
      VisitedStays(row[i], trace, moves, es, score, t, m);
    }
  }

  lemma VisitsNext(row: seq<Visit>, from: nat, to: nat, vs: seq<Vertex>, x: Visit)
    requires Visits(row, from, to, vs) && |row| < |vs| && x.v == vs[|row|] && x.n == to
    ensures Visits(row + [x], from, After(x), vs)
  {
    var more := row + [x];
    forall i | 0 <= i <= |row| ensures Before(more, from, i) == Before(row, from, i) {
      if i > 0 { assert more[i - 1] == row[i - 1]; }
    }
  }

  lemma UnderwayStill(rounds: seq<seq<Visit>>, starts: seq<nat>, row: seq<Visit>, trace: seq<Snapshot>,
                      moves: seq<Move>, es: seq<Edge>, vs: seq<Vertex>, score: Score, v: Vertex)
    requires Underway(rounds, starts, row, trace, moves, es, vs, score) && |row| < |vs| && v == vs[|row|]
    requires Visited(Visit(v, |moves|, false), trace, moves, es, score)
    ensures Underway(rounds, starts, row + [Visit(v, |moves|, false)], trace, moves, es, vs, score)
  {
    hide Visited, Visits;
    VisitsNext(row, starts[|rounds|], |moves|, vs, Visit(v, |moves|, false));
  }

  lemma UnderwayMoves(rounds: seq<seq<Visit>>, starts: seq<nat>, row: seq<Visit>, trace: seq<Snapshot>,
                      moves: seq<Move>, es: seq<Edge>, vs: seq<Vertex>, score: Score, v: Vertex, t: Snapshot, m: Move)
    requires Underway(rounds, starts, row, trace, moves, es, vs, score) && |row| < |vs| && v == vs[|row|]
    requires |trace| == |moves| + 1 && Visited(Visit(v, |moves|, true), trace + [t], moves + [m], es, score)
    ensures Underway(rounds, starts, row + [Visit(v, |moves|, true)], trace + [t], moves + [m], es, vs, score)
  {
    hide Visited, Visits, AllVisited;
    VisitsNext(row, starts[|rounds|], |moves|, vs, Visit(v, |moves|, true));
    AllVisitedStays(row, trace, moves, es, score, t, m);
    OneMoreVisited(row, trace + [t], moves + [m], es, score, Visit(v, |moves|, true));
    forall r | 0 <= r < |rounds| ensures AllVisited(rounds[r], trace + [t], moves + [m], es, score) {
      AllVisitedStays(rounds[r], trace, moves, es, score, t, m);
    }
  }

  lemma OneMoreVisited(row: seq<Visit>, trace: seq<Snapshot>, moves: seq<Move>, es: seq<Edge>, score: Score, x: Visit)
    requires AllVisited(row, trace, moves, es, score) && Visited(x, trace, moves, es, score)
    ensures AllVisited(row + [x], trace, moves, es, score)
  {
    hide Visited;
  }

  lemma RoundBegins(rounds: seq<seq<Visit>>, starts: seq<nat>, trace: seq<Snapshot>, moves: seq<Move>, es: seq<Edge>,
                    vs: seq<Vertex>, score: Score)
    requires Rounds(rounds, starts, trace, moves, es, vs, score)
    ensures Underway(rounds, starts, [], trace, moves, es, vs, score)
  {
    hide Visited;
  }

  lemma RoundEnds(rounds: seq<seq<Visit>>, starts: seq<nat>, row: seq<Visit>, trace: seq<Snapshot>, moves: seq<Move>,
                  es: seq<Edge>, vs: seq<Vertex>, score: Score)
    requires Underway(rounds, starts, row, trace, moves, es, vs, score) && |row| == |vs|
    ensures Rounds(rounds + [row], starts + [|moves|], trace, moves, es, vs, score)
  {
    hide Visited, Visits, AllVisited;
    var rs, ss := rounds + [row], starts + [|moves|];
    forall r | 0 <= r < |rs|
      ensures |rs[r]| == |vs| && Visits(rs[r], ss[r], ss[r + 1], vs) && AllVisited(rs[r], trace, moves, es, score)
    {
      if r < |rounds| { assert rs[r] == rounds[r] && ss[r] == starts[r] && ss[r + 1] == starts[r + 1]; }
    }
  }

  /** There is one label to be found. */
  lemma OneLabel(us: seq<Vertex>, s: Snapshot, v: Vertex, score: Score, a: int, x: Float, b: int, y: Float)
    requires Best(us, s, v, score, a, x) && Best(us, s, v, score, b, y)
    ensures a == b && x == y
  {
    assert forall i :: 0 <= i < |us| ==> us[i] in us;
    if i, j :| 0 <= i < |us| && FirstBest(us, s, v, score, a, x, i)
               && 0 <= j < |us| && FirstBest(us, s, v, score, b, y, j) {
      assert !Less(x, y) && !Less(y, x);
    }
  }

  function MovesOf(moves: seq<Move>, v: Vertex): nat {
    if moves == [] then 0 else MovesOf(moves[..|moves| - 1], v) + if moves[|moves| - 1].v == v then 1 else 0
  }

  lemma {:induction false} MovesCounted(moves: seq<Move>, v: Vertex)
    ensures MovesOf(moves, v) == TimesMoved(moves, |moves|, v)
  {
    if moves != [] {
      MovesCounted(moves[..|moves| - 1], v);
      OneMoreTime(moves, v);
    }
  }

  lemma OneMoreTime(moves: seq<Move>, v: Vertex)
    requires moves != []
    ensures
      var n := |moves| - 1;
      TimesMoved(moves, |moves|, v) == TimesMoved(moves[..n], n, v) + if moves[n].v == v then 1 else 0
  {
    var n := |moves| - 1;
    var before, now := set i | 0 <= i < n && moves[..n][i].v == v, set i | 0 <= i < |moves| && moves[i].v == v;
    assert forall i :: 0 <= i < n ==> moves[..n][i] == moves[i];
    assert now == if moves[n].v == v then before + {n} else before;
  }

  /** The addresses moved, each once, in the order of their first moves. */
  function Moved(moves: seq<Move>): seq<string> {
    if moves == [] then [] else
    var addrs, a := Moved(moves[..|moves| - 1]), moves[|moves| - 1].v.addr;
    if a in addrs then addrs else addrs + [a]
  }

  /** The last target of each address moved. */
  function Targets(moves: seq<Move>): map<string, int> {
    if moves == [] then map[] else
    Targets(moves[..|moves| - 1])[moves[|moves| - 1].v.addr := moves[|moves| - 1].to]
  }

  function Count(m: map<string, int>, a: string): int {
    if a in m then m[a] else 0
  }

  lemma HistogramGrows(vs: seq<Vertex>, p: map<Vertex, int>, population: seq<int>, v: Vertex, a: int)
    requires Histogram(vs, p, population) && v !in vs && 0 <= a < |population|
    ensures Histogram(vs + [v], p[v := a], population[a := population[a] + 1])
  {
    forall k | 0 <= k < |population|
      ensures (if k == a then population[k] + 1 else population[k]) == Population(vs + [v], p[v := a], k)
    {
      PopulationApart(vs, p, v, a, k);
      assert (vs + [v])[..|vs|] == vs;
    }
  }

  lemma HistogramMiscounts(vs: seq<Vertex>, p: map<Vertex, int>, population: seq<int>, a: int)
    requires Histogram(vs, p, population) && 0 <= a < |population|
    ensures !Histogram(vs, p, population[a := population[a] + 1])
  {
    assert population[a := population[a] + 1][a] != Population(vs, p, a);
  }

  function Shifted(population: seq<int>, a: int, b: int): seq<int>
    requires 0 <= a < |population| && 0 <= b < |population|
  {
    var less := population[a := population[a] - 1];
    less[b := less[b] + 1]
  }

  lemma HistogramMoves(vs: seq<Vertex>, p: map<Vertex, int>, population: seq<int>, v: Vertex, b: int)
    requires Histogram(vs, p, population) && Distinct(vs) && v in vs
    requires 0 <= Shard(p, v) < |population| && 0 <= b < |population|
    ensures Histogram(vs, p[v := b], Shifted(population, Shard(p, v), b))
  {
    forall k | 0 <= k < |population|
      ensures Shifted(population, Shard(p, v), b)[k] == Population(vs, p[v := b], k)
    {
      PopulationMoves(vs, p, v, b, k);
    }
  }

  lemma {:induction false} NothingMet(es: seq<Edge>, p: map<Vertex, int>, k: int)
    ensures EnteringFrom(es, p, {}, k) == 0 == StayingFrom(es, p, {}, k)
  {
    if es != [] { NothingMet(es[..|es| - 1], p, k); }
  }

  lemma {:induction false} EndsListed(es: seq<Edge>, e: Edge)
    requires TwoWay(es) && e in es
    ensures Adj(es, e.u) != [] && Adj(es, e.v) != []
  {
    var last := es[|es| - 1];
    assert last in es && forall d :: d in es[..|es| - 1] ==> d in es;
    if e != last {
      assert es == es[..|es| - 1] + [last];
      EndsListed(es[..|es| - 1], e);
    }
  }

  /** What the entering and staying counts of all the lists amount to. */
  lemma CountersFromLists(es: seq<Edge>, p: map<Vertex, int>, edgeSet: map<Vertex, seq<Vertex>>,
                          entering: seq<int>, staying: seq<int>, shardNum: nat)
    requires TwoWay(es) && Lists(edgeSet, es) && Ends(es, p.Keys) && InShards(p, shardNum)
    requires |entering| == |staying| == shardNum
    requires forall k :: 0 <= k < shardNum ==> entering[k] == EnteringFrom(es, p, edgeSet.Keys, k)
    requires forall k :: 0 <= k < shardNum ==> staying[k] == StayingFrom(es, p, edgeSet.Keys, k)
    ensures Total(entering) == 2 * Crossing(es, p)
    ensures forall k :: 0 <= k < shardNum ==> entering[k] + staying[k] / 2 == Touching(es, p, k)
  {
    forall e | e in es ensures e.u in edgeSet.Keys && e.v in edgeSet.Keys {
      EndsListed(es, e);
      assert Neighbors(edgeSet, e.u) != [] && Neighbors(edgeSet, e.v) != [];
    }
    assert Ends(es, edgeSet.Keys);
    TotalEntering(es, p, edgeSet.Keys, entering, shardNum);
    assert entering[..shardNum] == entering;
    AllShards(es, p, shardNum);
    forall k | 0 <= k < shardNum ensures entering[k] + staying[k] / 2 == Touching(es, p, k) {
      EdgesMetTwice(es, p, edgeSet.Keys, k);
    }
  }

  lemma TotalGrows(s: seq<int>, front: seq<int>, x: int)
    requires s == front + [x]
    ensures Total(s) == Total(front) + x
  {
    assert s[..|s| - 1] == front;
  }

  /** The moved vertex carries the meaning of the counters along, up to its self-loops. */
  lemma MoveFits(s: Snapshot, t: Snapshot, shardNum: nat, es: seq<Edge>, vs: seq<Vertex>, lag: nat, v: Vertex, b: int)
    requires Fits(s, shardNum, es, vs, lag) && TwoWay(es) && Distinct(vs) && v in vs && v in s.partition
    requires 0 <= b < shardNum && s.partition[v] != b && |t.edges2Shard| == shardNum
    requires t.partition == s.partition[v := b]
    requires t.population == Shifted(s.population, s.partition[v], b)
    requires forall k :: 0 <= k < shardNum ==>
               t.edges2Shard[k] == s.edges2Shard[k] + Changes(Adj(es, v), t.partition, s.partition[v], b, k)
    requires t.crossing == s.crossing + CrossChanges(Adj(es, v), t.partition, s.partition[v], b)
    ensures Fits(t, shardNum, es, vs, lag + SelfLoops(es, v))
  {
    hide Touching, Crossing, Changes, CrossChanges, SelfLoops, Population, Adj, TwoWay, Distinct;
    HistogramMoves(vs, s.partition, s.population, v, b);
    MoveChanges(es, s.partition, v, s.partition[v], b, b);
    if lag + SelfLoops(es, v) == 0 {
      forall k | 0 <= k < shardNum ensures t.edges2Shard[k] == Touching(es, t.partition, k) {
        MoveChanges(es, s.partition, v, s.partition[v], b, k);
      }
    }
  }

  lemma MovedAreTargets(moves: seq<Move>, a: string)
    ensures a in Moved(moves) <==> a in Targets(moves)
    ensures a in Moved(moves) <==> MovesOf(moves, Vertex(a)) > 0
  {
    if moves != [] { MovedAreTargets(moves[..|moves| - 1], a); }
  }

  lemma OneMoreMove(moves: seq<Move>, m: Move)
    ensures Moved(moves + [m]) == if m.v.addr in Targets(moves) then Moved(moves) else Moved(moves) + [m.v.addr]
    ensures Targets(moves + [m]) == Targets(moves)[m.v.addr := m.to]
    ensures forall v :: MovesOf(moves + [m], v) == MovesOf(moves, v) + if m.v == v then 1 else 0
  {
    assert (moves + [m])[..|moves|] == moves;
    MovedAreTargets(moves, m.v.addr);
  }

  /** Every vertex has a shard, and the populations of the shards are exact. */
  ghost predicate Labelled(vertices: set<Vertex>, vs: seq<Vertex>, p: map<Vertex, int>, population: seq<int>,
                           shardNum: nat)
  {
    p.Keys == vertices && InShards(p, shardNum) && |population| == shardNum && Histogram(vs, p, population)
  }

  lemma LabelMoves(vertices: set<Vertex>, vs: seq<Vertex>, p: map<Vertex, int>, population: seq<int>, shardNum: nat,
                   v: Vertex, b: int)
    requires Labelled(vertices, vs, p, population, shardNum) && Distinct(vs) && v in vs && v in p
    requires 0 <= b < shardNum
    ensures 0 <= p[v] < |population| == shardNum
    ensures Labelled(vertices, vs, p[v := b], Shifted(population, p[v], b), shardNum)
  {
    hide Population, Distinct;
    HistogramMoves(vs, p, population, v, b);
  }

  /** What the scan of the neighbours has found so far. */
  ghost predicate BestSoFar(us: seq<Vertex>, s: Snapshot, v: Vertex, score: Score, best: int, top: Float,
                            scores: map<int, Float>)
  {
    && Best(us, s, v, score, best, top) && top != NaN
    && (forall u :: u in us ==> Shard(s.partition, u) in scores)
    && (forall k :: k in scores ==> scores[k] == ScoreOf(score, v, k, s) && !Less(top, scores[k]))
  }

  lemma NothingFound(s: Snapshot, v: Vertex, score: Score)
    ensures BestSoFar([], s, v, score, Shard(s.partition, v), FLOOR, map[])
  {
  }

  lemma KnownShard(us: seq<Vertex>, u: Vertex, s: Snapshot, v: Vertex, score: Score, best: int, top: Float,
                   scores: map<int, Float>)
    requires BestSoFar(us, s, v, score, best, top, scores) && Shard(s.partition, u) in scores
    ensures BestSoFar(us + [u], s, v, score, best, top, scores)
  {
    var all := us + [u];
    assert forall i :: 0 <= i < |us| ==> all[i] == us[i];
    if i :| 0 <= i < |us| && FirstBest(us, s, v, score, best, top, i) {
      assert FirstBest(all, s, v, score, best, top, i);
    }
  }

  lemma NewShard(us: seq<Vertex>, u: Vertex, s: Snapshot, v: Vertex, score: Score, best: int, top: Float,
                 scores: map<int, Float>)
    requires BestSoFar(us, s, v, score, best, top, scores) && Shard(s.partition, u) !in scores
    ensures
      var k := Shard(s.partition, u);
      var x := ScoreOf(score, v, k, s);
      if Less(top, x) then BestSoFar(us + [u], s, v, score, k, x, scores[k := x])
      else BestSoFar(us + [u], s, v, score, best, top, scores[k := x])
  {
    var all, k := us + [u], Shard(s.partition, u);
    var x := ScoreOf(score, v, k, s);
    assert forall i :: 0 <= i < |us| ==> all[i] == us[i];
    assert all[|us|] == u;
    if Less(top, x) {
      assert forall j :: 0 <= j < |us| ==> us[j] in us;
      assert FirstBest(all, s, v, score, k, x, |us|);
    } else if i :| 0 <= i < |us| && FirstBest(us, s, v, score, best, top, i) {
      assert FirstBest(all, s, v, score, best, top, i);
    }
  }

  lemma FoundBest(us: seq<Vertex>, s: Snapshot, v: Vertex, score: Score, best: int, top: Float, scores: map<int, Float>)
    requires BestSoFar(us, s, v, score, best, top, scores)
    ensures Best(us, s, v, score, best, top)
  {
  }

  class ClpaState {
    const netGraph: Graph
    const addr2shard: string -> int
    const shardNum: nat
    const maxIterations: int
    var partitionMap: map<Vertex, int>
    var edges2Shard: seq<int>
    var vertexsNumInShard: seq<int>
    var minEdges2Shard: int
    var crossShardEdgeNum: int

    ghost predicate Valid()
      reads this`partitionMap, this`vertexsNumInShard, netGraph
    {
      && netGraph.Valid() && TwoWay(netGraph.edges)
      && Labelled(netGraph.vertexSet.Keys, netGraph.vertexs, partitionMap, vertexsNumInShard, shardNum)
    }

    ghost function Now(): Snapshot
      reads this
    {
      Snapshot(partitionMap, edges2Shard, crossShardEdgeNum, minEdges2Shard, vertexsNumInShard)
    }

    constructor (mIter: int, sn: nat, addr2shard: string -> int)
      ensures Valid() && fresh(netGraph) && netGraph.edges == [] && partitionMap == map[]
      ensures maxIterations == mIter && shardNum == sn && this.addr2shard == addr2shard
    {
      netGraph := new Graph();
      maxIterations, shardNum, this.addr2shard := mIter, sn, addr2shard;
      vertexsNumInShard, partitionMap := seq(sn, _ => 0), map[];
      edges2Shard, minEdges2Shard, crossShardEdgeNum := [], 0, 0;
    }

    /** A new vertex starts in the shard of its address. The populations stay exact
        exactly when the vertex is new. */
    method AddVertex(v: Vertex)
      requires Valid() && 0 <= addr2shard(v.addr) < shardNum
      modifies this`partitionMap, this`vertexsNumInShard, netGraph
      ensures netGraph.edges == old(netGraph.edges)
      ensures partitionMap == if v in old(partitionMap) then old(partitionMap)
                              else old(partitionMap)[v := addr2shard(v.addr)]
      ensures var counts := old(vertexsNumInShard);
              vertexsNumInShard == counts[partitionMap[v] := counts[partitionMap[v]] + 1]
      ensures netGraph.vertexs == WithVertex(old(netGraph.vertexs), v)
      ensures netGraph.vertexSet.Keys == old(netGraph.vertexSet.Keys) + {v}
      ensures Valid() <==> v !in old(netGraph.vertexSet)
    {
      hide Indexed, Lists, Rows, Ends, TwoWay, Histogram;
      Member(netGraph.vertexSet, netGraph.vertexs, v);
      netGraph.AddVertex(v);
      if v !in partitionMap {
        HistogramGrows(old(netGraph.vertexs), partitionMap, vertexsNumInShard, v, addr2shard(v.addr));
        partitionMap := partitionMap[v := addr2shard(v.addr)];
      } else {
        HistogramMiscounts(netGraph.vertexs, partitionMap, vertexsNumInShard, partitionMap[v]);
      }
      vertexsNumInShard := vertexsNumInShard[partitionMap[v] := vertexsNumInShard[partitionMap[v]] + 1];
    }

    /** Adds a two-way edge; its new ends start in the shards of their addresses. */
    method AddEdge(u: Vertex, v: Vertex)
      requires Valid() && 0 <= addr2shard(u.addr) < shardNum && 0 <= addr2shard(v.addr) < shardNum
      modifies this`partitionMap, this`vertexsNumInShard, netGraph
      ensures Valid() && netGraph.edges == old(netGraph.edges) + [Edge(u, v, false)]
      ensures partitionMap.Keys == old(partitionMap.Keys) + {u, v}
      ensures forall w :: w in partitionMap ==>
                partitionMap[w] == if w in old(partitionMap) then old(partitionMap)[w] else addr2shard(w.addr)
    {
      hide Indexed, Lists, Rows, Ends, Histogram;
      if u !in netGraph.vertexSet {
        AddVertex(u);
      }
      if v !in netGraph.vertexSet {
        AddVertex(v);
      }
      Member(netGraph.vertexSet, netGraph.vertexs, u);
      Member(netGraph.vertexSet, netGraph.vertexs, v);
      netGraph.AddEdge(u, v, 0);
    }

    /** One round of the first loop of ComputeEdges2Shard: the list of v. */
    method VisitList(v: Vertex, inter: seq<int>, ghost met: set<Vertex>) returns (interEdge: seq<int>)
      requires Valid() && v in netGraph.edgeSet && v !in met
      requires |edges2Shard| == |inter| == shardNum
      requires forall k :: 0 <= k < shardNum ==>
                 edges2Shard[k] == EnteringFrom(netGraph.edges, partitionMap, met, k)
      requires forall k :: 0 <= k < shardNum ==> inter[k] == StayingFrom(netGraph.edges, partitionMap, met, k)
      modifies this`edges2Shard
      ensures |edges2Shard| == |interEdge| == shardNum
      ensures forall k :: 0 <= k < shardNum ==>
                edges2Shard[k] == EnteringFrom(netGraph.edges, partitionMap, met + {v}, k)
      ensures forall k :: 0 <= k < shardNum ==>
                interEdge[k] == StayingFrom(netGraph.edges, partitionMap, met + {v}, k)
    {
      hide *;
      interEdge := inter;
      var lst, vShard := netGraph.edgeSet[v], Shard(partitionMap, v);
      ListFacts(v);
      ghost var before := edges2Shard;
      forall k ensures Entering([], partitionMap, vShard, k) == 0 == Staying([], partitionMap, vShard, k) {
        NoNeighbor(partitionMap, vShard, k);
      }
      for j := 0 to |lst|
        invariant |edges2Shard| == |interEdge| == shardNum
        invariant forall k :: 0 <= k < shardNum ==>
                    edges2Shard[k] == before[k] + Entering(lst[..j], partitionMap, vShard, k)
        invariant forall k :: 0 <= k < shardNum ==>
                    interEdge[k] == inter[k] + Staying(lst[..j], partitionMap, vShard, k)
      {
        var uShard := Shard(partitionMap, lst[j]);
        forall k
          ensures Entering(lst[..j + 1], partitionMap, vShard, k) ==
                  Entering(lst[..j], partitionMap, vShard, k) + if vShard != k && uShard == k then 1 else 0
          ensures Staying(lst[..j + 1], partitionMap, vShard, k) ==
                  Staying(lst[..j], partitionMap, vShard, k) + if vShard == k && uShard == k then 1 else 0
        {
          OneMoreNeighbor(lst[..j], lst[j], partitionMap, vShard, k);
          assert lst[..j + 1] == lst[..j] + [lst[j]];
        }
        if vShard != uShard {
          edges2Shard := edges2Shard[uShard := edges2Shard[uShard] + 1];
        } else {
          interEdge := interEdge[uShard := interEdge[uShard] + 1];
        }
      }
      assert lst[..|lst|] == lst;
      forall k
        ensures EnteringFrom(netGraph.edges, partitionMap, met + {v}, k) ==
                EnteringFrom(netGraph.edges, partitionMap, met, k) + Entering(lst, partitionMap, vShard, k)
        ensures StayingFrom(netGraph.edges, partitionMap, met + {v}, k) ==
                StayingFrom(netGraph.edges, partitionMap, met, k) + Staying(lst, partitionMap, vShard, k)
      {
        OneMoreVertex(netGraph.edges, partitionMap, met, v, k);
      }
    }

    /** The list of a vertex is its adjacency list, and its members have shards. */
    lemma ListFacts(v: Vertex)
      requires Valid()
      ensures Neighbors(netGraph.edgeSet, v) == Adj(netGraph.edges, v)
      ensures v in netGraph.edgeSet ==> netGraph.edgeSet[v] == Adj(netGraph.edges, v)
      ensures forall u :: u in Adj(netGraph.edges, v) ==> u in partitionMap && 0 <= Shard(partitionMap, u) < shardNum
    {
      AdjWithin(netGraph.edges, netGraph.vertexSet.Keys, v);
    }

    method LowerMin()
      modifies this`minEdges2Shard
      ensures minEdges2Shard == MinFrom(old(minEdges2Shard), edges2Shard)
    {
      for i := 0 to |edges2Shard|
        invariant minEdges2Shard == MinFrom(old(minEdges2Shard), edges2Shard[..i])
      {
        assert edges2Shard[..i + 1][..i] == edges2Shard[..i];
        if minEdges2Shard > edges2Shard[i] {
          minEdges2Shard := edges2Shard[i];
        }
      }
      assert edges2Shard[..|edges2Shard|] == edges2Shard;
    }

    /** The counters from scratch, whatever the order in which the lists are visited. */
    method ComputeEdges2Shard()
      requires Valid()
      modifies this`edges2Shard, this`minEdges2Shard, this`crossShardEdgeNum
      ensures Fits(Now(), shardNum, netGraph.edges, netGraph.vertexs, 0)
      ensures minEdges2Shard == MinFrom(INT_MAX, edges2Shard)
    {
      hide *;
      ghost var es, p := netGraph.edges, partitionMap;
      edges2Shard := seq(shardNum, _ => 0);
      var interEdge := seq(shardNum, _ => 0);
      minEdges2Shard := INT_MAX;
      var left := netGraph.edgeSet.Keys;
      ghost var met: set<Vertex> := {};
      forall k ensures EnteringFrom(es, p, {}, k) == 0 == StayingFrom(es, p, {}, k) {
        NothingMet(es, p, k);
      }
      while left != {}
        invariant left !! met && left + met == netGraph.edgeSet.Keys
        invariant |edges2Shard| == |interEdge| == shardNum
        invariant forall k :: 0 <= k < shardNum ==> edges2Shard[k] == EnteringFrom(es, p, met, k)
        invariant forall k :: 0 <= k < shardNum ==> interEdge[k] == StayingFrom(es, p, met, k)
        invariant minEdges2Shard == INT_MAX
      {
        var v :| v in left;
        left := left - {v};
        interEdge := VisitList(v, interEdge, met);
        met := met + {v};
      }
      assert met == netGraph.edgeSet.Keys;
      AllListed(interEdge);
      ghost var entering := edges2Shard;
      crossShardEdgeNum := 0;
      NoTotal();
      for i := 0 to |edges2Shard|
        invariant edges2Shard == entering && crossShardEdgeNum == Total(edges2Shard[..i])
        invariant minEdges2Shard == INT_MAX
      {
        TotalGrows(edges2Shard[..i + 1], edges2Shard[..i], edges2Shard[i]);
        crossShardEdgeNum := crossShardEdgeNum + edges2Shard[i];
      }
      assert entering[..|entering|] == entering;
      crossShardEdgeNum := crossShardEdgeNum / 2;
      for i := 0 to shardNum
        invariant |edges2Shard| == shardNum && minEdges2Shard == INT_MAX
        invariant crossShardEdgeNum == Crossing(es, p)
        invariant forall k :: 0 <= k < shardNum ==>
                    edges2Shard[k] == entering[k] + if k < i then interEdge[k] / 2 else 0
      {
        edges2Shard := edges2Shard[i := edges2Shard[i] + interEdge[i] / 2];
      }
      LowerMin();
      FitsNow();
    }

    /** The counters after v has moved to its shard from the given one. */
    method ComputeEdges2Shard1(v: Vertex, oldshard: int)
      requires Valid() && v in partitionMap && partitionMap[v] != oldshard && 0 <= oldshard < shardNum
      requires |edges2Shard| == shardNum
      modifies this`edges2Shard, this`minEdges2Shard, this`crossShardEdgeNum
      ensures |edges2Shard| == shardNum && minEdges2Shard == MinFrom(edges2Shard[0], edges2Shard)
      ensures forall k :: 0 <= k < shardNum ==>
                edges2Shard[k] ==
                old(edges2Shard[k]) + Changes(Adj(netGraph.edges, v), partitionMap, oldshard, partitionMap[v], k)
      ensures crossShardEdgeNum == old(crossShardEdgeNum)
                + CrossChanges(Adj(netGraph.edges, v), partitionMap, oldshard, partitionMap[v])
    {
      hide *;
      ListFacts(v);
      ShardOf(v);
      var lst, vShard := Listed(v), Shard(partitionMap, v);
      ListedIs(v);
      NoChanges(partitionMap, oldshard, vShard);
      for j := 0 to |lst|
        invariant |edges2Shard| == shardNum
        invariant forall k :: 0 <= k < shardNum ==>
                    edges2Shard[k] == old(edges2Shard[k]) + Changes(lst[..j], partitionMap, oldshard, vShard, k)
        invariant crossShardEdgeNum == old(crossShardEdgeNum) + CrossChanges(lst[..j], partitionMap, oldshard, vShard)
      {
        var uShard := Shard(partitionMap, lst[j]);
        ChangesAt(lst, j, partitionMap, oldshard, vShard);
        if vShard != uShard {
          edges2Shard := edges2Shard[vShard := edges2Shard[vShard] + 1];
          if uShard == oldshard {
            crossShardEdgeNum := crossShardEdgeNum + 1;
          } else {
            edges2Shard := edges2Shard[oldshard := edges2Shard[oldshard] - 1];
          }
        } else {
          edges2Shard := edges2Shard[oldshard := edges2Shard[oldshard] - 1];
          crossShardEdgeNum := crossShardEdgeNum - 1;
        }
      }
      assert lst[..|lst|] == lst;
      minEdges2Shard := edges2Shard[0];
      LowerMin();
    }

    function Listed(v: Vertex): seq<Vertex>
      reads netGraph
    {
      Neighbors(netGraph.edgeSet, v)
    }

    lemma ListedIs(v: Vertex)
      ensures Listed(v) == Neighbors(netGraph.edgeSet, v)
    {
    }

    lemma ShardOf(v: Vertex)
      requires Valid() && v in partitionMap
      ensures Shard(partitionMap, v) == partitionMap[v] && 0 <= partitionMap[v] < shardNum
      ensures v in netGraph.vertexs <==> v in partitionMap
      ensures |vertexsNumInShard| == shardNum && Distinct(netGraph.vertexs) && TwoWay(netGraph.edges)
    {
      Places(netGraph.vertexSet, netGraph.vertexs);
      Member(netGraph.vertexSet, netGraph.vertexs, v);
    }

    /** The label of v, each shard scored once, at its first neighbour. */
    method BestShard(v: Vertex, score: Score) returns (best: int, ghost top: Float)
      requires Valid() && v in partitionMap && |edges2Shard| == shardNum
      ensures Best(Adj(netGraph.edges, v), Now(), v, score, best, top)
      ensures 0 <= best < shardNum
    {
      hide *;
      ListFacts(v);
      ShardOf(v);
      ghost var s := Now();
      NowIs();
      var lst := Listed(v);
      ListedIs(v);
      var scores: map<int, Float> := map[];
      var maxScore := FLOOR;
      best := partitionMap[v];
      NothingFound(s, v, score);
      for i := 0 to |lst|
        invariant BestSoFar(lst[..i], s, v, score, best, maxScore, scores)
        invariant 0 <= best < shardNum
      {
        var uShard := Shard(partitionMap, lst[i]);
        assert lst[..i + 1] == lst[..i] + [lst[i]];
        if uShard in scores {
          KnownShard(lst[..i], lst[i], s, v, score, best, maxScore, scores);
        } else {
          NewShard(lst[..i], lst[i], s, v, score, best, maxScore, scores);
          scores := scores[uShard := score(v, uShard, partitionMap, edges2Shard, minEdges2Shard)];
          if Less(maxScore, scores[uShard]) {
            maxScore, best := scores[uShard], uShard;
          }
        }
      }
      top := maxScore;
      assert lst[..|lst|] == lst;
      FoundBest(lst, s, v, score, best, maxScore, scores);
    }

    lemma NowIs()
      ensures Now() == Snapshot(partitionMap, edges2Shard, crossShardEdgeNum, minEdges2Shard, vertexsNumInShard)
      ensures forall score: Score, v, k ::
                ScoreOf(score, v, k, Now()) == score(v, k, partitionMap, edges2Shard, minEdges2Shard)
    {
    }

    lemma ValidIs()
      ensures Valid() <==>
                && netGraph.Valid() && TwoWay(netGraph.edges)
                && Labelled(netGraph.vertexSet.Keys, netGraph.vertexs, partitionMap, vertexsNumInShard, shardNum)
    {
    }

    lemma NowFits(lag: nat)
      requires Fits(Now(), shardNum, netGraph.edges, netGraph.vertexs, lag)
      ensures |edges2Shard| == shardNum
    {
    }

    lemma StepIs(s: Snapshot, v: Vertex, to: int, top: Float, score: Score)
      requires v in netGraph.vertexs && v in s.partition && s.partition[v] != to
      requires partitionMap == s.partition[v := to] && Best(Adj(netGraph.edges, v), s, v, score, to, top)
      requires 0 <= s.partition[v] < |s.population| && 0 <= to < |s.population| && s.population[s.partition[v]] > 1
      requires vertexsNumInShard == Shifted(s.population, s.partition[v], to)
      requires |edges2Shard| > 0 && minEdges2Shard == MinFrom(edges2Shard[0], edges2Shard)
      ensures Step(s, Move(v, to), Now(), netGraph.edges, netGraph.vertexs, score)
    {
    }

    /** The body of the inner loop of CLPA_Partition for one vertex. */
    method Relabel(v: Vertex, score: Score, ghost lag: nat) returns (moved: bool, to: int)
      requires Valid() && v in partitionMap
      requires Fits(Now(), shardNum, netGraph.edges, netGraph.vertexs, lag)
      modifies this`partitionMap, this`edges2Shard, this`crossShardEdgeNum, this`minEdges2Shard, this`vertexsNumInShard
      ensures Valid() && (!moved ==> Now() == old(Now()))
      ensures exists top :: Best(Adj(netGraph.edges, v), old(Now()), v, score, to, top)
      ensures 0 <= old(partitionMap[v]) < |old(vertexsNumInShard)|
      ensures moved <==> to != old(partitionMap[v]) && old(vertexsNumInShard[partitionMap[v]]) > 1
      ensures moved ==> Step(old(Now()), Move(v, to), Now(), netGraph.edges, netGraph.vertexs, score)
      ensures Fits(Now(), shardNum, netGraph.edges, netGraph.vertexs,
                   if moved then lag + SelfLoops(netGraph.edges, v) else lag)
    {
      hide *;
      ghost var s := Now();
      NowIs();
      NowFits(lag);
      ShardOf(v);
      ghost var top;
      to, top := BestShard(v, score);
      var vNowShard := partitionMap[v];
      moved := vNowShard != to && vertexsNumInShard[vNowShard] > 1;
      if moved {
        ValidIs();
        LabelMoves(netGraph.vertexSet.Keys, netGraph.vertexs, partitionMap, vertexsNumInShard, shardNum, v, to);
        ShiftedIs(vertexsNumInShard, vNowShard, to);
        partitionMap := partitionMap[v := to];
        vertexsNumInShard := vertexsNumInShard[vNowShard := vertexsNumInShard[vNowShard] - 1];
        vertexsNumInShard := vertexsNumInShard[to := vertexsNumInShard[to] + 1];
        ValidIs();
        ComputeEdges2Shard1(v, vNowShard);
        NowIs();
        MoveFits(s, Now(), shardNum, netGraph.edges, netGraph.vertexs, lag, v, to);
        StepIs(s, v, to, top, score);
      }
    }

    /** The whole run. Besides its two results it returns the run itself: a snapshot of
        the state before the first move and after each move, the moves, and the visits of
        every round, each of which is a move exactly when it must be. */
    method CLPA_Partition(score: Score)
      returns (addrs: seq<string>, res: map<string, int>, ghost trace: seq<Snapshot>, ghost moves: seq<Move>,
               ghost rounds: seq<seq<Visit>>, ghost starts: seq<nat>)
      requires Valid()
      modifies this`partitionMap, this`edges2Shard, this`crossShardEdgeNum, this`minEdges2Shard, this`vertexsNumInShard
      ensures Valid() && Run(trace, moves, shardNum, netGraph.edges, netGraph.vertexs, score)
      ensures |trace| == |moves| + 1 && trace[0].partition == old(partitionMap) && trace[|moves|] == Now()
      ensures addrs == Moved(moves) && res == Targets(moves)
      ensures forall v :: TimesMoved(moves, |moves|, v) <= 1000
      ensures |rounds| == if maxIterations < 0 then 0 else maxIterations
      ensures Rounds(rounds, starts, trace, moves, netGraph.edges, netGraph.vertexs, score)
    {
      hide *;
      ComputeEdges2Shard();
      res, addrs := map[], [];
      var updateThreshold: map<string, int> := map[];
      trace, moves := [Now()], [];
      NoMoves(score);
      rounds, starts := [], [0];
      NoRounds(trace, netGraph.edges, netGraph.vertexs, score);
      for iter := 0 to if maxIterations < 0 then 0 else maxIterations
        invariant Valid() && Run(trace, moves, shardNum, netGraph.edges, netGraph.vertexs, score)
        invariant |trace| == |moves| + 1 && trace[0].partition == old(partitionMap) && trace[|moves|] == Now()
        invariant addrs == Moved(moves) && res == Targets(moves)
        invariant forall v: Vertex :: Count(updateThreshold, v.addr) == MovesOf(moves, v) <= 1000
        invariant |rounds| == iter && Rounds(rounds, starts, trace, moves, netGraph.edges, netGraph.vertexs, score)
      {
        ghost var row: seq<Visit> := [];
        RoundBegins(rounds, starts, trace, moves, netGraph.edges, netGraph.vertexs, score);
        for i := 0 to |netGraph.vertexs|
          invariant Valid() && Run(trace, moves, shardNum, netGraph.edges, netGraph.vertexs, score)
          invariant |trace| == |moves| + 1 && trace[0].partition == old(partitionMap) && trace[|moves|] == Now()
          invariant addrs == Moved(moves) && res == Targets(moves)
          invariant forall v: Vertex :: Count(updateThreshold, v.addr) == MovesOf(moves, v) <= 1000
          invariant |row| == i && |rounds| == iter
          invariant Underway(rounds, starts, row, trace, moves, netGraph.edges, netGraph.vertexs, score)
        {
          var v := netGraph.vertexs[i];
          ghost var before, n := row, |moves|;
          row := row + [Visit(v, n, false)];
          Mapped(i);
          NowIs();
          if Count(updateThreshold, v.addr) >= 1000 {
            Unmoved(v, trace, moves, netGraph.edges, score, false);
            UnderwayStill(rounds, starts, before, trace, moves, netGraph.edges, netGraph.vertexs, score, v);
            continue;
          }
          RunFits(trace, moves, score);
          ghost var was := Now();
          var moved, to := Relabel(v, score, Lag(netGraph.edges, moves));
          if moved {
            OneMoreMove(moves, Move(v, to));
            Recount(updateThreshold, v);
            if v.addr !in res {
              addrs := addrs + [v.addr];
            }
            res := res[v.addr := to];
            updateThreshold := updateThreshold[v.addr := Count(updateThreshold, v.addr) + 1];
            RunExtends(trace, moves, shardNum, netGraph.edges, netGraph.vertexs, score, Move(v, to), Now());
            Relabelled(v, to, trace, moves, netGraph.edges, score, Now());
            UnderwayMoves(rounds, starts, before, trace, moves, netGraph.edges, netGraph.vertexs, score, v, Now(),
                          Move(v, to));
            row := before + [Visit(v, n, true)];
            trace, moves := trace + [Now()], moves + [Move(v, to)];
          } else {
            Unmoved(v, trace, moves, netGraph.edges, score, true);
            UnderwayStill(rounds, starts, before, trace, moves, netGraph.edges, netGraph.vertexs, score, v);
          }
        }
        RoundEnds(rounds, starts, row, trace, moves, netGraph.edges, netGraph.vertexs, score);
        rounds, starts := rounds + [row], starts + [|moves|];
      }
      forall v ensures TimesMoved(moves, |moves|, v) <= 1000 {
        MovesCounted(moves, v);
      }
    }

    lemma NoMoves(score: Score)
      requires Fits(Now(), shardNum, netGraph.edges, netGraph.vertexs, 0)
      requires minEdges2Shard == MinFrom(INT_MAX, edges2Shard)
      ensures Run([Now()], [], shardNum, netGraph.edges, netGraph.vertexs, score)
      ensures Now().partition == partitionMap
      ensures Moved([]) == [] && Targets([]) == map[]
      ensures forall v: Vertex :: Count(map[], v.addr) == 0 == MovesOf([], v)
    {
    }

    lemma Mapped(i: nat)
      requires Valid() && i < |netGraph.vertexs|
      ensures netGraph.vertexs[i] in partitionMap
    {
      Member(netGraph.vertexSet, netGraph.vertexs, netGraph.vertexs[i]);
    }

    lemma RunFits(trace: seq<Snapshot>, moves: seq<Move>, score: Score)
      requires Run(trace, moves, shardNum, netGraph.edges, netGraph.vertexs, score)
      ensures |trace| == |moves| + 1
      ensures Fits(trace[|moves|], shardNum, netGraph.edges, netGraph.vertexs, Lag(netGraph.edges, moves))
    {
      hide Fits, Step, Lag;
      assert moves[..|moves|] == moves;
    }

    lemma AllListed(staying: seq<int>)
      requires Valid() && |edges2Shard| == |staying| == shardNum
      requires forall k :: 0 <= k < shardNum ==>
                 edges2Shard[k] == EnteringFrom(netGraph.edges, partitionMap, netGraph.edgeSet.Keys, k)
      requires forall k :: 0 <= k < shardNum ==>
                 staying[k] == StayingFrom(netGraph.edges, partitionMap, netGraph.edgeSet.Keys, k)
      ensures Total(edges2Shard) == 2 * Crossing(netGraph.edges, partitionMap)
      ensures forall k :: 0 <= k < shardNum ==>
                edges2Shard[k] + staying[k] / 2 == Touching(netGraph.edges, partitionMap, k)
    {
      CountersFromLists(netGraph.edges, partitionMap, netGraph.edgeSet, edges2Shard, staying, shardNum);
    }

    lemma FitsNow()
      requires Valid() && |edges2Shard| == shardNum
      requires crossShardEdgeNum == Crossing(netGraph.edges, partitionMap)
      requires forall k :: 0 <= k < shardNum ==> edges2Shard[k] == Touching(netGraph.edges, partitionMap, k)
      ensures Fits(Now(), shardNum, netGraph.edges, netGraph.vertexs, 0)
    {
    }
  }

  lemma NoRounds(trace: seq<Snapshot>, es: seq<Edge>, vs: seq<Vertex>, score: Score)
    ensures Rounds([], [0], trace, [], es, vs, score)
  {
  }

  /** A vertex that stays where it is: it has been moved often enough, or its best shard is
      its own, or it is the last one there. */
  lemma Unmoved(v: Vertex, trace: seq<Snapshot>, moves: seq<Move>, es: seq<Edge>, score: Score, scored: bool)
    requires |trace| == |moves| + 1 && v in trace[|moves|].partition
    requires scored <==> MovesOf(moves, v) < 1000
    requires
      var s, own := trace[|moves|], trace[|moves|].partition[v];
      scored ==> exists to, top :: Best(Adj(es, v), s, v, score, to, top)
                   && !(to != own && 0 <= own < |s.population| && s.population[own] > 1)
    ensures Visited(Visit(v, |moves|, false), trace, moves, es, score)
  {
    hide Best, Adj;
    MovesCounted(moves, v);
  }

  lemma Relabelled(v: Vertex, to: int, trace: seq<Snapshot>, moves: seq<Move>, es: seq<Edge>, score: Score, t: Snapshot)
    requires |trace| == |moves| + 1 && v in trace[|moves|].partition && MovesOf(moves, v) < 1000
    requires exists top :: Best(Adj(es, v), trace[|moves|], v, score, to, top)
    requires var s, own := trace[|moves|], trace[|moves|].partition[v];
             to != own && 0 <= own < |s.population| && s.population[own] > 1
    ensures Visited(Visit(v, |moves|, true), trace + [t], moves + [Move(v, to)], es, score)
  {
    hide Best, Adj;
    MovesCounted(moves, v);
    assert (trace + [t])[|moves|] == trace[|moves|];
    assert (set i | 0 <= i < |moves| && (moves + [Move(v, to)])[i].v == v) ==
           (set i | 0 <= i < |moves| && moves[i].v == v);
  }

  lemma ShiftedIs(population: seq<int>, a: int, b: int)
    requires 0 <= a < |population| && 0 <= b < |population| && a != b
    ensures Shifted(population, a, b) == population[a := population[a] - 1][b := population[b] + 1]
  {
  }

  lemma Recount(m: map<string, int>, v: Vertex)
    ensures forall w: Vertex :: Count(m[v.addr := Count(m, v.addr) + 1], w.addr) ==
                                Count(m, w.addr) + if v == w then 1 else 0
  {
  }

  lemma ChangesAt(us: seq<Vertex>, j: nat, p: map<Vertex, int>, a: int, b: int)
    requires j < |us| && a != b
    ensures forall k :: Changes(us[..j + 1], p, a, b, k) == Changes(us[..j], p, a, b, k)
              + if k == b && Shard(p, us[j]) != b then 1 else if k == a && Shard(p, us[j]) != a then -1 else 0
    ensures CrossChanges(us[..j + 1], p, a, b) == CrossChanges(us[..j], p, a, b)
              + if Shard(p, us[j]) == a then 1 else if Shard(p, us[j]) == b then -1 else 0
  {
    hide Changes, CrossChanges;
    assert us[..j + 1] == us[..j] + [us[j]];
    forall k
      ensures Changes(us[..j + 1], p, a, b, k) == Changes(us[..j], p, a, b, k) + Change(a, b, Shard(p, us[j]), k)
    {
      OneMoreChange(us[..j], us[j], p, a, b, k);
    }
    OneMoreChange(us[..j], us[j], p, a, b, 0);
  }

  lemma NoChanges(p: map<Vertex, int>, a: int, b: int)
    ensures forall k :: Changes([], p, a, b, k) == 0
    ensures CrossChanges([], p, a, b) == 0
  {
  }

  lemma NoTotal()
    ensures Total([]) == 0
  {
  }

  // ---------------------------------------------------------------------------
  // What holds of every run

  /** The counters are the ones a computation from scratch would give. */
  ghost predicate Recomputed(es: seq<Edge>, s: Snapshot) {
    && s.crossing == Crossing(es, s.partition)
    && (forall k :: 0 <= k < |s.edges2Shard| ==> s.edges2Shard[k] == Touching(es, s.partition, k))
    && s.least == MinFrom(INT_MAX, s.edges2Shard)
  }

  lemma {:induction false} LagFree(es: seq<Edge>, moves: seq<Move>)
    ensures Lag(es, moves) == 0 <==> forall j :: 0 <= j < |moves| ==> SelfLoops(es, moves[j].v) == 0
  {
    if moves != [] {
      var n := |moves| - 1;
      LagFree(es, moves[..n]);
      assert Lag(es, moves) == 0 ==> SelfLoops(es, moves[n].v) == 0;
      assert forall j :: 0 <= j < n ==> moves[..n][j] == moves[j];
    }
  }

  /** After any move of a run the counters are those of a computation from scratch
      exactly when no vertex moved so far has an edge to itself and, after the first
      move, some shard touches at most 2^31 - 1 edges. */
  lemma RunRecomputed(trace: seq<Snapshot>, moves: seq<Move>, shardNum: nat, es: seq<Edge>, vs: seq<Vertex>,
                      score: Score, i: nat)
    requires Run(trace, moves, shardNum, es, vs, score) && i <= |moves|
    ensures Recomputed(es, trace[i]) <==>
              && (forall j :: 0 <= j < i ==> SelfLoops(es, moves[j].v) == 0)
              && (i == 0 || exists k :: 0 <= k < shardNum && trace[i].edges2Shard[k] <= INT_MAX)
  {
    hide Touching, Crossing, SelfLoops, MinFrom, Lag, Best, Adj, Histogram, Shifted;
    var s := trace[i];
    assert Fits(s, shardNum, es, vs, Lag(es, moves[..i]));
    LagFree(es, moves[..i]);
    assert forall j :: 0 <= j < i ==> moves[..i][j] == moves[j];
    if i > 0 {
      assert Step(trace[i - 1], moves[i - 1], s, es, vs, score);
      MinAgrees(s.edges2Shard);
    }
  }

  lemma {:induction false} NoSelfLoop(es: seq<Edge>, p: map<Vertex, int>, v: Vertex, k: int)
    requires NoSelfLoops(es)
    ensures SelfLoops(es, v) == 0 && Touching(es, p, k) <= |es|
  {
    if es != [] {
      assert es[|es| - 1] in es && forall e :: e in es[..|es| - 1] ==> e in es;
      NoSelfLoop(es[..|es| - 1], p, v, k);
    }
  }

  /** On a graph without self-loops, of at most 2^31 - 1 edges, the incremental counters
      are the recomputed ones after every move of every run. */
  lemma IncrementalIsRecomputed(trace: seq<Snapshot>, moves: seq<Move>, shardNum: nat, es: seq<Edge>,
                                vs: seq<Vertex>, score: Score, i: nat)
    requires Run(trace, moves, shardNum, es, vs, score) && i <= |moves|
    requires |es| <= INT_MAX && NoSelfLoops(es)
    ensures Recomputed(es, trace[i])
  {
    hide Touching, Crossing, SelfLoops, MinFrom, Lag, Best, Adj, Histogram, Shifted;
    forall v ensures SelfLoops(es, v) == 0 { NoSelfLoop(es, map[], v, 0); }
    LagFree(es, moves[..i]);
    assert Fits(trace[i], shardNum, es, vs, Lag(es, moves[..i]));
    if i > 0 {
      assert Step(trace[i - 1], moves[i - 1], trace[i], es, vs, score);
      NoSelfLoop(es, trace[i].partition, moves[0].v, 0);
      assert trace[i].edges2Shard[0] <= INT_MAX;
    }
    RunRecomputed(trace, moves, shardNum, es, vs, score, i);
  }

  /** A shard with vertices is never emptied. */
  lemma {:induction false} StaysOccupied(trace: seq<Snapshot>, moves: seq<Move>, shardNum: nat, es: seq<Edge>,
                                         vs: seq<Vertex>, score: Score, i: nat, k: nat)
    requires Run(trace, moves, shardNum, es, vs, score) && i <= |moves| && k < shardNum
    requires Population(vs, trace[0].partition, k) > 0
    ensures Population(vs, trace[i].partition, k) > 0
  {
    hide Population, Counters, Best, Adj, Lag, MinFrom;
    if i > 0 {
      StaysOccupied(trace, moves, shardNum, es, vs, score, i - 1, k);
      assert Step(trace[i - 1], moves[i - 1], trace[i], es, vs, score);
      assert Fits(trace[i - 1], shardNum, es, vs, Lag(es, moves[..i - 1]));
      assert Fits(trace[i], shardNum, es, vs, Lag(es, moves[..i]));
      assert trace[i].population[k] > 0;
    }
  }

  function PartitionAfter(p: map<Vertex, int>, moves: seq<Move>): map<Vertex, int> {
    if moves == [] then p else
    PartitionAfter(p, moves[..|moves| - 1])[moves[|moves| - 1].v := moves[|moves| - 1].to]
  }

  lemma {:induction false} RunPartition(trace: seq<Snapshot>, moves: seq<Move>, shardNum: nat, es: seq<Edge>,
                                        vs: seq<Vertex>, score: Score, i: nat)
    requires Run(trace, moves, shardNum, es, vs, score) && i <= |moves|
    ensures trace[i].partition == PartitionAfter(trace[0].partition, moves[..i])
  {
    hide Fits, Best, Adj, MinFrom, Shifted;
    if i > 0 {
      RunPartition(trace, moves, shardNum, es, vs, score, i - 1);
      assert Step(trace[i - 1], moves[i - 1], trace[i], es, vs, score);
      assert moves[..i][..i - 1] == moves[..i - 1];
    }
  }

  lemma {:induction false} LastTarget(p: map<Vertex, int>, moves: seq<Move>, v: Vertex)
    requires v in p
    ensures v in PartitionAfter(p, moves)
    ensures PartitionAfter(p, moves)[v] == if v.addr in Targets(moves) then Targets(moves)[v.addr] else p[v]
  {
    if moves != [] {
      LastTarget(p, moves[..|moves| - 1], v);
    }
  }

  /** The result map gives each moved vertex its final shard, and all other vertices keep
      their shard. */
  lemma FinalShards(trace: seq<Snapshot>, moves: seq<Move>, shardNum: nat, es: seq<Edge>, vs: seq<Vertex>,
                    score: Score, v: Vertex)
    requires Run(trace, moves, shardNum, es, vs, score) && v in trace[0].partition
    ensures v in trace[|moves|].partition
    ensures trace[|moves|].partition[v] ==
            if v.addr in Targets(moves) then Targets(moves)[v.addr] else trace[0].partition[v]
  {
    RunPartition(trace, moves, shardNum, es, vs, score, |moves|);
    assert moves[..|moves|] == moves;
    LastTarget(trace[0].partition, moves, v);
  }

  /** The address list names exactly the vertices that moved, each of them once. */
  lemma {:induction false} MovedOnce(moves: seq<Move>, v: Vertex)
    ensures v.addr in Moved(moves) <==> exists i :: 0 <= i < |moves| && moves[i].v == v
    ensures v.addr in Moved(moves) <==> v.addr in Targets(moves)
    ensures forall a, b :: 0 <= a < b < |Moved(moves)| ==> Moved(moves)[a] != Moved(moves)[b]
  {
    if moves != [] {
      var n := |moves| - 1;
      MovedOnce(moves[..n], v);
      MovedOnce(moves[..n], moves[n].v);
      if v.addr in Moved(moves[..n]) {
        var i :| 0 <= i < n && moves[..n][i].v == v;
        assert moves[i].v == v;
      }
      assert moves[n].v.addr == v.addr <==> moves[n].v == v;
      assert forall i :: 0 <= i < n ==> moves[..n][i] == moves[i];
    }
  }

  /** The addresses are listed in the order of their first moves. */
  lemma {:induction false} MovedInOrder(moves: seq<Move>, a: nat, b: nat) returns (i: nat)
    requires a < b < |Moved(moves)|
    ensures i < |moves| && moves[i].v.addr == Moved(moves)[a]
    ensures forall j :: 0 <= j <= i ==> moves[j].v.addr != Moved(moves)[b]
  {
    var n := |moves| - 1;
    assert forall j :: 0 <= j < n ==> moves[..n][j] == moves[j];
    if b < |Moved(moves[..n])| {
      i := MovedInOrder(moves[..n], a, b);
    } else {
      var first := Vertex(Moved(moves)[a]);
      MovedOnce(moves[..n], first);
      MovedOnce(moves[..n], moves[n].v);
      i :| 0 <= i < n && moves[..n][i].v == first;
      forall j | 0 <= j <= i ensures moves[j].v.addr != Moved(moves)[b] {
        assert moves[..n][j].v != moves[n].v;
      }
    }
  }
}
