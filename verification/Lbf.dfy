/** The load-balancing partitioner of algorithm/partition_LBF.go: each shard but the last
    takes randomly picked vertices until it reaches the average load. Loads are exact
    numbers here, where the program rounds the average to a float64. */
module Lbf {
  import opened Graph

  function Degree(es: seq<Edge>, v: Vertex): nat {
    |Adj(es, v)|
  }

  /** The load of shard k: the degrees of its vertices. */
  function Load(vs: seq<Vertex>, es: seq<Edge>, p: map<Vertex, int>, k: int): nat {
    if vs == [] then 0 else
    var v := vs[|vs| - 1];
    Load(vs[..|vs| - 1], es, p, k) + if v in p && p[v] == k then Degree(es, v) else 0
  }

  /** The load of the first n shards. */
  function LoadBelow(vs: seq<Vertex>, es: seq<Edge>, p: map<Vertex, int>, n: int): nat {
    if vs == [] then 0 else
    var v := vs[|vs| - 1];
    LoadBelow(vs[..|vs| - 1], es, p, n) + if v in p && 0 <= p[v] < n then Degree(es, v) else 0
  }

  function MaxDegree(vs: seq<Vertex>, es: seq<Edge>): nat {
    if vs == [] then 0 else
    var rest, d := MaxDegree(vs[..|vs| - 1], es), Degree(es, vs[|vs| - 1]);
    if d > rest then d else rest
  }

  /** The number of entries of all adjacency lists: two for a two-way edge and one for a
      one-way edge. */
  function Entries(es: seq<Edge>): nat {
    if es == [] then 0 else Entries(es[..|es| - 1]) + if es[|es| - 1].oneWay then 1 else 2
  }

  function EntriesOf(es: seq<Edge>, s: set<Vertex>): nat {
    if es == [] then 0 else
    var e := es[|es| - 1];
    EntriesOf(es[..|es| - 1], s) + (if e.v in s then 1 else 0) + if !e.oneWay && e.u in s then 1 else 0
  }

  lemma {:induction false} OneMoreList(es: seq<Edge>, s: set<Vertex>, v: Vertex)
    requires v !in s
    ensures EntriesOf(es, s + {v}) == EntriesOf(es, s) + Degree(es, v)
  {
    if es != [] { OneMoreList(es[..|es| - 1], s, v); }
  }

  lemma {:induction false} NoList(es: seq<Edge>)
    ensures EntriesOf(es, {}) == 0
  {
    if es != [] { NoList(es[..|es| - 1]); }
  }

  lemma {:induction false} AllLists(es: seq<Edge>, s: set<Vertex>)
    requires forall e :: e in es ==> e.v in s && (!e.oneWay ==> e.u in s)
    ensures EntriesOf(es, s) == Entries(es)
  {
    if es != [] {
      assert es[|es| - 1] in es && forall e :: e in es[..|es| - 1] ==> e in es;
      AllLists(es[..|es| - 1], s);
    }
  }

  lemma {:induction false} EndHasList(es: seq<Edge>, e: Edge)
    requires e in es
    ensures Adj(es, e.v) != [] && (!e.oneWay ==> Adj(es, e.u) != [])
  {
    assert es == es[..|es| - 1] + [es[|es| - 1]];
    if e != es[|es| - 1] { EndHasList(es[..|es| - 1], e); }
  }

  /** An assignment of a vertex without a shard changes the load of one shard. */
  lemma {:induction false} LoadGrows(vs: seq<Vertex>, es: seq<Edge>, p: map<Vertex, int>, v: Vertex, i: int, k: int)
    requires Distinct(vs) && v !in p
    ensures Load(vs, es, p[v := i], k) == Load(vs, es, p, k) + if v in vs && i == k then Degree(es, v) else 0
  {
    if vs != [] {
      var front := vs[..|vs| - 1];
      assert vs == front + [vs[|vs| - 1]] && Distinct(front);
      LoadGrows(front, es, p, v, i, k);
      if v == vs[|vs| - 1] { assert v !in front; }
    }
  }

  lemma {:induction false} NoLoad(vs: seq<Vertex>, es: seq<Edge>, p: map<Vertex, int>, k: int)
    requires forall v :: v in p ==> p[v] != k
    ensures Load(vs, es, p, k) == 0
  {
    if vs != [] { NoLoad(vs[..|vs| - 1], es, p, k); }
  }

  lemma {:induction false} DegreeBounded(vs: seq<Vertex>, es: seq<Edge>, v: Vertex)
    requires v in vs
    ensures Degree(es, v) <= MaxDegree(vs, es)
  {
    assert vs == vs[..|vs| - 1] + [vs[|vs| - 1]];
    if v != vs[|vs| - 1] { DegreeBounded(vs[..|vs| - 1], es, v); }
  }

  lemma {:induction false} OneMoreShard(vs: seq<Vertex>, es: seq<Edge>, p: map<Vertex, int>, n: nat)
    ensures LoadBelow(vs, es, p, n + 1) == LoadBelow(vs, es, p, n) + Load(vs, es, p, n)
  {
    if vs != [] { OneMoreShard(vs[..|vs| - 1], es, p, n); }
  }

  lemma {:induction false} NoShard(vs: seq<Vertex>, es: seq<Edge>, p: map<Vertex, int>)
    ensures LoadBelow(vs, es, p, 0) == 0
  {
    if vs != [] { NoShard(vs[..|vs| - 1], es, p); }
  }

  /** All shards together carry every entry of the adjacency lists. */
  lemma {:induction false} AllLoad(vs: seq<Vertex>, es: seq<Edge>, p: map<Vertex, int>, n: nat)
    requires Distinct(vs) && forall v :: v in vs ==> v in p && 0 <= p[v] < n
    ensures LoadBelow(vs, es, p, n) == EntriesOf(es, Members(vs))
  {
    if vs == [] {
      assert Members(vs) == {};
      NoList(es);
    } else {
      hide Degree, EntriesOf;
      var front, v := vs[..|vs| - 1], vs[|vs| - 1];
      assert vs == front + [v] && Distinct(front) && v !in front;
      hide Distinct;
      AllLoad(front, es, p, n);
      OneMoreList(es, Members(front), v);
      assert Members(vs) == Members(front) + {v};
    }
  }

  function Multiple(n: nat, a: real): real {
    n as real * a
  }

  lemma OneMoreTime(n: nat, a: real)
    requires n > 0
    ensures Multiple(n, a) == Multiple(n - 1, a) + a && Multiple(0, a) == 0.0
  {
  }

  /** If the first n shards carry at least a units each, they carry n * a together. */
  lemma {:induction false} LoadsAddUp(vs: seq<Vertex>, es: seq<Edge>, p: map<Vertex, int>, n: nat, a: real)
    requires forall k :: 0 <= k < n ==> Load(vs, es, p, k) as real >= a
    ensures LoadBelow(vs, es, p, n) as real >= Multiple(n, a)
  {
    hide Multiple, Load, LoadBelow;
    if n == 0 {
      NoShard(vs, es, p);
      OneMoreTime(1, a);
    } else {
      LoadsAddUp(vs, es, p, n - 1, a);
      OneMoreShard(vs, es, p, n - 1);
      OneMoreTime(n, a);
    }
  }

  // ---------------------------------------------------------------------------
  // The assignment

  /** The addresses whose shard is not their default one, in the order of assignment. */
  function Moved(order: seq<Vertex>, p: map<Vertex, int>, addr2shard: string -> int): seq<string> {
    if order == [] then [] else
    var front, v := Moved(order[..|order| - 1], p, addr2shard), order[|order| - 1];
    if v in p && p[v] != addr2shard(v.addr) then front + [v.addr] else front
  }

  lemma {:induction false} MovedUnchanged(order: seq<Vertex>, p: map<Vertex, int>, addr2shard: string -> int,
                                          v: Vertex, i: int)
    requires v !in order
    ensures Moved(order, p[v := i], addr2shard) == Moved(order, p, addr2shard)
  {
    if order != [] { MovedUnchanged(order[..|order| - 1], p, addr2shard, v, i); }
  }

  /** The vertices of vs split into those with a shard, in the order in which they got it,
      and those left. */
  ghost predicate Split(vs: seq<Vertex>, p: map<Vertex, int>, order: seq<Vertex>, left: seq<Vertex>) {
    && Distinct(order) && Distinct(left) && Members(order) !! Members(left)
    && Members(order) + Members(left) == Members(vs)
    && p.Keys == Members(order)
  }

  /** The two results list the assigned vertices away from their default shard. */
  ghost predicate Results(p: map<Vertex, int>, order: seq<Vertex>, addrs: seq<string>, res: map<string, int>,
                          addr2shard: string -> int)
  {
    && addrs == Moved(order, p, addr2shard)
    && (forall v :: v in p ==> (v.addr in res <==> p[v] != addr2shard(v.addr)))
    && (forall a :: a in res ==> Vertex(a) in p && res[a] == p[Vertex(a)])
  }

  lemma RemovedAt(left: seq<Vertex>, j: nat)
    requires Distinct(left) && j < |left|
    ensures Distinct(left[..j] + left[j + 1..])
    ensures Members(left[..j] + left[j + 1..]) == Members(left) - {left[j]}
  {
  }

  lemma SplitGrows(vs: seq<Vertex>, p: map<Vertex, int>, order: seq<Vertex>, left: seq<Vertex>, j: nat, i: int)
    requires Split(vs, p, order, left) && j < |left|
    ensures left[j] !in p && left[j] in vs && left[j] !in order
    ensures Split(vs, p[left[j] := i], order + [left[j]], left[..j] + left[j + 1..])
  {
    RemovedAt(left, j);
    assert left[j] in Members(left);
    assert Members(order + [left[j]]) == Members(order) + {left[j]};
  }

  lemma ResultsGrow(p: map<Vertex, int>, order: seq<Vertex>, addrs: seq<string>, res: map<string, int>,
                    addr2shard: string -> int, v: Vertex, i: int)
    requires Results(p, order, addrs, res, addr2shard) && v !in p && v !in order
    ensures var away := i != addr2shard(v.addr);
            Results(p[v := i], order + [v], if away then addrs + [v.addr] else addrs,
                    if away then res[v.addr := i] else res, addr2shard)
  {
    assert (order + [v])[..|order|] == order;
    MovedUnchanged(order, p, addr2shard, v, i);
    assert Vertex(v.addr) == v;
  }

  /** The loads of the shards filled so far, when some vertices are left or none. */
  ghost predicate Filled(vs: seq<Vertex>, es: seq<Edge>, p: map<Vertex, int>, avg: real, n: nat, left: seq<Vertex>) {
    && (forall v :: v in p ==> 0 <= p[v])
    && (forall k :: 0 <= k < n ==> WithinBound(vs, es, p, avg, k) && ReachesAverage(vs, es, p, avg, k, left))
  }

  ghost predicate UpTo(p: map<Vertex, int>, k: int) {
    forall v :: v in p ==> p[v] <= k
  }

  /** The load is below the average plus the largest degree; in a graph without edges,
      where both are zero, it is zero. */
  ghost predicate WithinBound(vs: seq<Vertex>, es: seq<Edge>, p: map<Vertex, int>, avg: real, k: int) {
    || Load(vs, es, p, k) as real < avg + MaxDegree(vs, es) as real
    || (avg == 0.0 && Load(vs, es, p, k) == 0)
  }

  /** The load is at least the average, unless no vertex was left for later shards. */
  ghost predicate ReachesAverage(vs: seq<Vertex>, es: seq<Edge>, p: map<Vertex, int>, avg: real, k: int,
                                 left: seq<Vertex>)
  {
    Load(vs, es, p, k) as real >= avg || (left == [] && UpTo(p, k))
  }

  lemma FilledGrows(vs: seq<Vertex>, es: seq<Edge>, p: map<Vertex, int>, avg: real, n: nat, left: seq<Vertex>,
                    rest: seq<Vertex>, v: Vertex)
    requires Filled(vs, es, p, avg, n, left) && left != [] && Distinct(vs) && v !in p
    ensures Filled(vs, es, p[v := n], avg, n, rest)
  {
    var q := p[v := n];
    forall k | 0 <= k < n ensures WithinBound(vs, es, q, avg, k) && ReachesAverage(vs, es, q, avg, k, rest) {
      assert WithinBound(vs, es, p, avg, k) && ReachesAverage(vs, es, p, avg, k, left);
      LoadGrows(vs, es, p, v, n, k);
    }
  }

  lemma Average(total: nat, n: nat)
    requires n > 0
    ensures Multiple(n, total as real / n as real) == total as real && total as real / n as real >= 0.0
  {
  }

  lemma EndsAreMembers(es: seq<Edge>, vs: seq<Vertex>)
    requires Ends(es, Members(vs))
    ensures forall e :: e in es ==> e.v in Members(vs) && e.u in Members(vs)
  {
  }

  /** The last shard gets at most the average. */
  lemma LastLoad(vs: seq<Vertex>, es: seq<Edge>, p: map<Vertex, int>, avg: real, n: nat)
    requires Distinct(vs) && Ends(es, Members(vs)) && n > 0 && avg >= 0.0
    requires Multiple(n, avg) == Entries(es) as real
    requires forall v :: v in vs ==> v in p && 0 <= p[v] < n
    requires forall v :: v in p ==> v in vs
    requires forall k :: 0 <= k < n - 1 ==>
               Load(vs, es, p, k) as real >= avg || UpTo(p, k)
    ensures Load(vs, es, p, n - 1) as real <= avg
  {
    if k :| 0 <= k < n - 1 && UpTo(p, k) {
      NoLoad(vs, es, p, n - 1);
    } else {
      hide *;
      LoadsAddUp(vs, es, p, n - 1, avg);
      OneMoreShard(vs, es, p, n - 1);
      AllLoad(vs, es, p, n);
      EndsAreMembers(es, vs);
      AllLists(es, Members(vs));
      OneMoreTime(n, avg);
    }
  }

  lemma NothingAssigned(vs: seq<Vertex>, es: seq<Edge>, avg: real)
    requires Distinct(vs)
    ensures Split(vs, map[], [], vs) && Filled(vs, es, map[], avg, 0, vs)
    ensures forall f: string -> int :: Results(map[], [], [], map[], f)
  {
  }

  lemma EmptyShard(vs: seq<Vertex>, es: seq<Edge>, p: map<Vertex, int>, avg: real, i: int)
    requires avg >= 0.0 && forall v :: v in p ==> p[v] < i
    ensures Load(vs, es, p, i) == 0 && WithinBound(vs, es, p, avg, i)
  {
    NoLoad(vs, es, p, i);
  }

  lemma OneMoreVertex(vs: seq<Vertex>, es: seq<Edge>, p: map<Vertex, int>, avg: real, i: int, v: Vertex)
    requires Distinct(vs) && v in vs && v !in p && Load(vs, es, p, i) as real < avg
    ensures Load(vs, es, p[v := i], i) == Load(vs, es, p, i) + Degree(es, v)
    ensures WithinBound(vs, es, p[v := i], avg, i)
  {
    LoadGrows(vs, es, p, v, i, i);
    DegreeBounded(vs, es, v);
  }

  lemma OneMoreFilled(vs: seq<Vertex>, es: seq<Edge>, p: map<Vertex, int>, avg: real, i: nat, left: seq<Vertex>)
    requires Filled(vs, es, p, avg, i, left) && WithinBound(vs, es, p, avg, i)
    requires Load(vs, es, p, i) as real >= avg || (left == [] && forall v :: v in p ==> p[v] <= i)
    ensures Filled(vs, es, p, avg, i + 1, left)
  {
  }

  lemma AllFilled(vs: seq<Vertex>, es: seq<Edge>, p: map<Vertex, int>, avg: real, n: nat, order: seq<Vertex>)
    requires n > 0 && Split(vs, p, order, []) && Filled(vs, es, p, avg, n - 1, [])
    requires Distinct(vs) && Ends(es, Members(vs)) && avg >= 0.0 && Multiple(n, avg) == Entries(es) as real
    requires forall v :: v in p ==> 0 <= p[v] < n
    ensures Distinct(order) && Members(order) == Members(vs) == p.Keys
    ensures forall k :: 0 <= k < n - 1 ==> WithinBound(vs, es, p, avg, k)
    ensures forall k :: 0 <= k < n - 1 ==> Load(vs, es, p, k) as real >= avg || UpTo(p, k)
    ensures Load(vs, es, p, n - 1) as real <= avg
  {
    hide Load, Multiple, Entries, Distinct, Ends, WithinBound;
    forall k | 0 <= k < n - 1 ensures Load(vs, es, p, k) as real >= avg || UpTo(p, k) {
      assert ReachesAverage(vs, es, p, avg, k, []);
    }
    LastLoad(vs, es, p, avg, n);
  }

  class LbfState {
    const netGraph: Graph
    const addr2shard: string -> int
    const shardNum: int
    var partitionMap: map<Vertex, int>
    var avgWeight: real

    constructor (sn: int, addr2shard: string -> int)
      ensures fresh(netGraph) && netGraph.Valid() && netGraph.edges == [] && shardNum == sn
    {
      netGraph := new Graph();
      shardNum, this.addr2shard, partitionMap, avgWeight := sn, addr2shard, map[], 0.0;
    }

    /** The average load, whatever the order in which the lists are visited. */
    method ComputeAvgWeight()
      requires netGraph.Valid() && shardNum >= 1
      modifies this`avgWeight
      ensures avgWeight == Entries(netGraph.edges) as real / shardNum as real
    {
      hide *;
      var sum := 0;
      var left := netGraph.edgeSet.Keys;
      ghost var met: set<Vertex> := {};
      NoList(netGraph.edges);
      while left != {}
        invariant left !! met && left + met == netGraph.edgeSet.Keys
        invariant sum == EntriesOf(netGraph.edges, met)
      {
        var v :| v in left;
        ListOf(v);
        OneMoreList(netGraph.edges, met, v);
        sum := sum + |netGraph.edgeSet[v]|;
        left, met := left - {v}, met + {v};
      }
      assert met == netGraph.edgeSet.Keys;
      ListsHoldAll();
      avgWeight := sum as real / shardNum as real;
    }

    lemma ListOf(v: Vertex)
      requires netGraph.Valid()
      ensures |Neighbors(netGraph.edgeSet, v)| == Degree(netGraph.edges, v)
      ensures v in netGraph.edgeSet ==> |netGraph.edgeSet[v]| == Degree(netGraph.edges, v)
    {
    }

    lemma ListsHoldAll()
      requires netGraph.Valid()
      ensures EntriesOf(netGraph.edges, netGraph.edgeSet.Keys) == Entries(netGraph.edges)
    {
      forall e | e in netGraph.edges
        ensures e.v in netGraph.edgeSet && (!e.oneWay ==> e.u in netGraph.edgeSet)
      {
        EndHasList(netGraph.edges, e);
        assert Neighbors(netGraph.edgeSet, e.v) == Adj(netGraph.edges, e.v);
        assert Neighbors(netGraph.edgeSet, e.u) == Adj(netGraph.edges, e.u);
      }
      AllLists(netGraph.edges, netGraph.edgeSet.Keys);
    }

    /** Whatever vertices the random picks choose: every vertex gets a shard exactly once
        (order lists them as they got it), a shard before the last one stays below the
        average plus the largest degree and reaches the average unless the vertices run
        out, and the last shard stays within the average. */
    method LBF_Partition() returns (addrs: seq<string>, res: map<string, int>, ghost order: seq<Vertex>)
      requires netGraph.Valid() && shardNum >= 1
      modifies this`avgWeight, this`partitionMap, netGraph`vertexs
      ensures avgWeight == Entries(netGraph.edges) as real / shardNum as real
      ensures Distinct(order) && Members(order) == Members(old(netGraph.vertexs)) == partitionMap.Keys
      ensures forall v :: v in partitionMap ==> 0 <= partitionMap[v] < shardNum
      ensures forall k :: 0 <= k < shardNum - 1 ==>
                WithinBound(old(netGraph.vertexs), netGraph.edges, partitionMap, avgWeight, k)
      ensures forall k :: 0 <= k < shardNum - 1 ==>
                || Load(old(netGraph.vertexs), netGraph.edges, partitionMap, k) as real >= avgWeight
                || UpTo(partitionMap, k)
      ensures Load(old(netGraph.vertexs), netGraph.edges, partitionMap, shardNum - 1) as real <= avgWeight
      ensures Results(partitionMap, order, addrs, res, addr2shard)
    {
      hide *;
      ghost var vs, es := netGraph.vertexs, netGraph.edges;
      GraphFacts();
      ComputeAvgWeight();
      ghost var average := avgWeight;
      Average(Entries(es), shardNum);
      res, addrs, order := map[], [], [];
      partitionMap := map[];
      NothingAssigned(vs, es, avgWeight);
      for i := 0 to shardNum - 1
        invariant avgWeight == average && Split(vs, partitionMap, order, netGraph.vertexs)
        invariant Results(partitionMap, order, addrs, res, addr2shard)
        invariant Filled(vs, es, partitionMap, avgWeight, i, netGraph.vertexs)
        invariant forall v :: v in partitionMap ==> 0 <= partitionMap[v] < i
      {
        var curSum := 0;
        EmptyShard(vs, es, partitionMap, avgWeight, i);
        while curSum as real < avgWeight && |netGraph.vertexs| > 0
          invariant avgWeight == average && Split(vs, partitionMap, order, netGraph.vertexs)
          invariant Results(partitionMap, order, addrs, res, addr2shard)
          invariant Filled(vs, es, partitionMap, avgWeight, i, netGraph.vertexs)
          invariant forall v :: v in partitionMap ==> 0 <= partitionMap[v] <= i
          invariant curSum == Load(vs, es, partitionMap, i)
          invariant WithinBound(vs, es, partitionMap, avgWeight, i)
          decreases |netGraph.vertexs|
        {
          var index: nat :| index < |netGraph.vertexs|;
          var vertex := netGraph.vertexs[index];
          SplitGrows(vs, partitionMap, order, netGraph.vertexs, index, i);
          ResultsGrow(partitionMap, order, addrs, res, addr2shard, vertex, i);
          FilledGrows(vs, es, partitionMap, avgWeight, i, netGraph.vertexs,
                      netGraph.vertexs[..index] + netGraph.vertexs[index + 1..], vertex);
          OneMoreVertex(vs, es, partitionMap, avgWeight, i, vertex);
          partitionMap := partitionMap[vertex := i];
          if i != addr2shard(vertex.addr) {
            addrs := addrs + [vertex.addr];
            res := res[vertex.addr := i];
          }
          curSum := curSum + Listed(vertex);
          order := order + [vertex];
          netGraph.vertexs := netGraph.vertexs[..index] + netGraph.vertexs[index + 1..];
        }
        OneMoreFilled(vs, es, partitionMap, avgWeight, i, netGraph.vertexs);
      }
      var left := netGraph.vertexs;
      for j := 0 to |left|
        invariant avgWeight == average && Split(vs, partitionMap, order, left[j..])
        invariant Results(partitionMap, order, addrs, res, addr2shard)
        invariant Filled(vs, es, partitionMap, avgWeight, shardNum - 1, left[j..])
        invariant forall v :: v in partitionMap ==> 0 <= partitionMap[v] < shardNum
      {
        var vertex := left[j];
        assert left[j..][0] == vertex && left[j..][..0] + left[j..][1..] == left[j + 1..];
        SplitGrows(vs, partitionMap, order, left[j..], 0, shardNum - 1);
        ResultsGrow(partitionMap, order, addrs, res, addr2shard, vertex, shardNum - 1);
        FilledGrows(vs, es, partitionMap, avgWeight, shardNum - 1, left[j..], left[j + 1..], vertex);
        partitionMap := partitionMap[vertex := shardNum - 1];
        if shardNum - 1 != addr2shard(vertex.addr) {
          addrs := addrs + [vertex.addr];
          res := res[vertex.addr := shardNum - 1];
        }
        order := order + [vertex];
      }
      assert left[|left|..] == [];
      AllFilled(vs, es, partitionMap, avgWeight, shardNum, order);
    }

    /** The number of neighbours in the list of v. */
    function Listed(v: Vertex): (n: nat)
      reads netGraph`edgeSet
    {
      |Neighbors(netGraph.edgeSet, v)|
    }

    lemma GraphFacts()
      requires netGraph.Valid()
      ensures Distinct(netGraph.vertexs) && Ends(netGraph.edges, Members(netGraph.vertexs))
      ensures forall v :: Listed(v) == Degree(netGraph.edges, v)
    {
    }
  }
}
