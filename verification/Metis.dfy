/** The edge count that algorithm/partition_METIS.go writes at the head of its input
    file, and the two checks that guard it. */
module Metis {
  import opened Graph

  /** Who sees whom after these edges: an ordered pair for each entry of a row. */
  function Sights(es: seq<Edge>): set<(Vertex, Vertex)> {
    if es == [] then {} else
    var e := es[|es| - 1];
    Sights(es[..|es| - 1]) + {(e.v, e.u)} + if e.oneWay then {} else {(e.u, e.v)}
  }

  /** The distinct undirected edges between different vertices. */
  function Links(es: seq<Edge>): set<set<Vertex>> {
    if es == [] then {} else
    var e := es[|es| - 1];
    Links(es[..|es| - 1]) + if e.u == e.v then {} else {{e.u, e.v}}
  }

  /** The vertices with an edge to themselves. */
  function Loops(es: seq<Edge>): set<Vertex> {
    if es == [] then {} else
    var e := es[|es| - 1];
    Loops(es[..|es| - 1]) + if e.u == e.v then {e.u} else {}
  }

  lemma {:induction false} SightsAreLinks(es: seq<Edge>, x: Vertex, y: Vertex)
    requires TwoWay(es)
    ensures (x, y) in Sights(es) <==> if x == y then x in Loops(es) else {x, y} in Links(es)
  {
    if es != [] {
      var e := es[|es| - 1];
      assert e in es;
      SightsAreLinks(es[..|es| - 1], x, y);
      if {x, y} == {e.u, e.v} {
        assert x in {e.u, e.v} && y in {e.u, e.v} && e.u in {x, y} && e.v in {x, y};
      }
    }
  }

  /** With two-way edges only, each undirected edge is seen from both ends and each
      self-loop once. */
  lemma {:induction false} SightsCount(es: seq<Edge>)
    requires TwoWay(es)
    ensures |Sights(es)| == 2 * |Links(es)| + |Loops(es)|
  {
    if es != [] {
      var front, e := es[..|es| - 1], es[|es| - 1];
      assert e in es && TwoWay(front);
      SightsCount(front);
      SightsAreLinks(front, e.u, e.v);
      SightsAreLinks(front, e.v, e.u);
      assert {e.v, e.u} == {e.u, e.v};
      OneMoreEdge(Sights(front), Links(front), Loops(front), e.u, e.v);
      assert Sights(es) == Sights(front) + {(e.v, e.u)} + {(e.u, e.v)};
    }
  }

  lemma OneMoreEdge(sights: set<(Vertex, Vertex)>, links: set<set<Vertex>>, loops: set<Vertex>, u: Vertex, v: Vertex)
    requires |sights| == 2 * |links| + |loops|
    requires (u, v) in sights <==> if u == v then u in loops else {u, v} in links
    requires (v, u) in sights <==> (u, v) in sights
    ensures |sights + {(v, u)} + {(u, v)}| ==
            2 * |links + if u == v then {} else {{u, v}}| + |loops + if u == v then {u} else {}|
  {
    if (u, v) in sights {
      assert sights + {(v, u)} + {(u, v)} == sights;
      assert links + (if u == v then {} else {{u, v}}) == links && loops + (if u == v then {u} else {}) == loops;
    } else if u == v {
      assert sights + {(v, u)} + {(u, v)} == sights + {(u, v)} && links + {} == links;
    } else {
      assert (v, u) !in sights && (u, v) !in sights + {(v, u)};
      assert |sights + {(v, u)} + {(u, v)}| == |sights| + 2;
      assert loops + {} == loops && |links + {{u, v}}| == |links| + 1;
    }
  }

  lemma {:induction false} NoLoops(es: seq<Edge>)
    ensures NoSelfLoops(es) <==> Loops(es) == {}
  {
    if es != [] {
      NoLoops(es[..|es| - 1]);
      assert es == es[..|es| - 1] + [es[|es| - 1]];
    }
  }

  lemma {:induction false} SightsAreNeighbors(es: seq<Edge>, x: Vertex, y: Vertex)
    ensures (x, y) in Sights(es) <==> y in Adj(es, x)
  {
    if es != [] {
      SightsAreNeighbors(es[..|es| - 1], x, y);
    }
  }

  function Total(rows: seq<map<int, int>>): nat {
    if rows == [] then 0 else Total(rows[..|rows| - 1]) + |rows[|rows| - 1]|
  }

  /** The pairs whose first vertex is among the given ones. */
  function From(sights: set<(Vertex, Vertex)>, vertexs: seq<Vertex>): set<(Vertex, Vertex)> {
    set p | p in sights && p.0 in vertexs
  }

  lemma Pick<T>(s: set<T>) returns (x: T)
    requires s != {}
    ensures x in s
  {
    x :| x in s;
  }

  lemma {:induction false} SameSize(js: set<int>, vertexs: seq<Vertex>, x: Vertex, pairs: set<(Vertex, Vertex)>)
    requires Distinct(vertexs)
    requires forall j :: j in js ==> 0 <= j < |vertexs|
    requires forall p :: p in pairs ==> p.0 == x && p.1 in vertexs
    requires forall j :: 0 <= j < |vertexs| ==> (j in js <==> (x, vertexs[j]) in pairs)
    ensures |js| == |pairs|
    decreases js
  {
    assert forall p :: p in pairs ==> exists j :: 0 <= j < |vertexs| && p == (x, vertexs[j]);
    if js == {} {
      assert pairs == {};
    } else {
      var j := Pick(js);
      SameSize(js - {j}, vertexs, x, pairs - {(x, vertexs[j])});
    }
  }

  lemma RowSize(row: map<int, int>, vertexs: seq<Vertex>, es: seq<Edge>, x: Vertex)
    requires Distinct(vertexs) && Ends(es, Members(vertexs))
    requires RowHolds(row, vertexs, Adj(es, x))
    ensures |row| == |set p | p in Sights(es) && p.0 == x|
  {
    var pairs := set p | p in Sights(es) && p.0 == x;
    AdjWithin(es, Members(vertexs), x);
    forall p | p in pairs ensures p.1 in vertexs {
      SightsAreNeighbors(es, p.0, p.1);
    }
    forall j | 0 <= j < |vertexs| ensures j in row.Keys <==> (x, vertexs[j]) in pairs {
      SightsAreNeighbors(es, x, vertexs[j]);
      TimesIn(Adj(es, x), vertexs[j]);
    }
    SameSize(row.Keys, vertexs, x, pairs);
  }

  lemma {:induction false} TotalCountsSights(rows: seq<map<int, int>>, vertexs: seq<Vertex>, es: seq<Edge>, n: nat)
    requires Rows(rows, vertexs, es) && Distinct(vertexs) && Ends(es, Members(vertexs))
    requires n <= |vertexs|
    ensures Total(rows[..n]) == |From(Sights(es), vertexs[..n])|
  {
    hide Sights, RowHolds;
    if n == 0 {
      assert From(Sights(es), vertexs[..n]) == {};
    } else {
      TotalCountsSights(rows, vertexs, es, n - 1);
      RowSize(rows[n - 1], vertexs, es, vertexs[n - 1]);
      assert rows[..n][..n - 1] == rows[..n - 1];
      OneMoreRow(Sights(es), vertexs[..n], vertexs[..n - 1], vertexs[n - 1]);
    }
  }

  lemma OneMoreRow(sights: set<(Vertex, Vertex)>, vertexs: seq<Vertex>, front: seq<Vertex>, x: Vertex)
    requires vertexs == front + [x] && x !in front
    ensures |From(sights, vertexs)| == |From(sights, front)| + |set p | p in sights && p.0 == x|
  {
    var last := set p | p in sights && p.0 == x;
    assert From(sights, vertexs) == From(sights, front) + last;
    assert From(sights, front) !! last;
  }

  lemma {:induction false} SightsWithin(es: seq<Edge>, vertexs: seq<Vertex>)
    requires Ends(es, Members(vertexs))
    ensures From(Sights(es), vertexs) == Sights(es)
  {
    forall p | p in Sights(es) ensures p.0 in vertexs {
      SightsAreNeighbors(es, p.0, p.1);
      AdjWithin(es, Members(vertexs), p.0);
    }
  }

  lemma {:induction false} IndexSize(vertexSet: map<Vertex, int>, vertexs: seq<Vertex>)
    requires Indexed(vertexSet, vertexs)
    ensures |vertexSet| == |vertexs|
  {
    if vertexs == [] {
      assert vertexSet == map[];
    } else {
      var n := |vertexs| - 1;
      IndexSize(vertexSet - {vertexs[n]}, vertexs[..n]);
      assert (vertexSet - {vertexs[n]}).Keys == vertexSet.Keys - {vertexs[n]};
    }
  }

  lemma CountsSights(g: Graph)
    requires g.Valid()
    ensures |g.vertexSet| == |g.vertexs|
    ensures Total(g.edgeWeight) == |Sights(g.edges)| && Total([]) == 0
  {
    hide Sights, RowHolds, Adj, Times;
    IndexSize(g.vertexSet, g.vertexs);
    assert Members(g.vertexs) == g.vertexSet.Keys;
    Places(g.vertexSet, g.vertexs);
    TotalCountsSights(g.edgeWeight, g.vertexs, g.edges, |g.vertexs|);
    assert g.vertexs[..|g.vertexs|] == g.vertexs && g.edgeWeight[..|g.vertexs|] == g.edgeWeight;
    SightsWithin(g.edges, g.vertexs);
  }

  lemma OneMoreTotal(rows: seq<map<int, int>>, front: seq<map<int, int>>, row: map<int, int>)
    requires rows == front + [row]
    ensures Total(rows) == Total(front) + |row|
  {
    assert rows[..|rows| - 1] == front;
  }

  datatype Count = Panic | Edges(count: nat)

  /** The edge count before the file is written. Of its two panics the first is never
      reached; the second is reached exactly when the rows hold an odd number of pairs,
      which for two-way edges means an odd number of vertices with a self-loop. */
  method CountEdges(g: Graph) returns (r: Count)
    requires g.Valid()
    ensures r == Panic <==> |Sights(g.edges)| % 2 != 0
    ensures r.Edges? ==> 2 * r.count == |Sights(g.edges)|
    ensures TwoWay(g.edges) ==> (r == Panic <==> |Loops(g.edges)| % 2 != 0)
    ensures TwoWay(g.edges) && NoSelfLoops(g.edges) ==> r == Edges(|Links(g.edges)|)
  {
    hide *;
    CountsSights(g);
    if |g.vertexSet| != |g.vertexs| {
      return Panic;
    }
    var edgeNum := 0;
    for i := 0 to |g.edgeWeight|
      invariant edgeNum == Total(g.edgeWeight[..i])
    {
      OneMoreTotal(g.edgeWeight[..i + 1], g.edgeWeight[..i], g.edgeWeight[i]);
      edgeNum := edgeNum + |g.edgeWeight[i]|;
    }
    assert g.edgeWeight[..|g.edgeWeight|] == g.edgeWeight;
    if TwoWay(g.edges) { SightsCount(g.edges); }
    NoLoops(g.edges);
    if edgeNum % 2 != 0 {
      return Panic;
    }
    r := Edges(edgeNum / 2);
  }
}
