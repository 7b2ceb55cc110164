/** The transaction graph of algorithm/graph.go: an index of vertices, adjacency
    lists and weight rows that AddVertex and AddEdge grow in place. A ghost list of
    the edges added says what they must contain. */
module Graph {

  datatype Vertex = Vertex(addr: string)
  datatype Edge = Edge(u: Vertex, v: Vertex, oneWay: bool)

  /** What an edge adds to the list of w: v when w is u, unless the edge is one-way,
      and u when w is v. */
  function Extended(us: seq<Vertex>, e: Edge, w: Vertex): seq<Vertex> {
    var vs := if !e.oneWay && e.u == w then us + [e.v] else us;
    if e.v == w then vs + [e.u] else vs
  }

  /** The adjacency list of w after these edges. */
  function Adj(es: seq<Edge>, w: Vertex): seq<Vertex> {
    if es == [] then [] else Extended(Adj(es[..|es| - 1], w), es[|es| - 1], w)
  }

  function Members(vertexs: seq<Vertex>): set<Vertex> {
    set v | v in vertexs
  }

  /** How often x occurs in a list. */
  function Times(us: seq<Vertex>, x: Vertex): nat {
    if us == [] then 0 else Times(us[..|us| - 1], x) + if us[|us| - 1] == x then 1 else 0
  }

  lemma {:induction false} TimesIn(us: seq<Vertex>, x: Vertex)
    ensures x in us <==> Times(us, x) > 0
  {
    if us != [] {
      TimesIn(us[..|us| - 1], x);
      assert us == us[..|us| - 1] + [us[|us| - 1]];
    }
  }

  lemma AdjGrows(es: seq<Edge>, e: Edge, w: Vertex)
    ensures Adj(es + [e], w) == Extended(Adj(es, w), e, w)
  {
    assert (es + [e])[..|es + [e]| - 1] == es;
  }

  /** The ends of the edges are vertices of the index. */
  ghost predicate Ends(es: seq<Edge>, vs: set<Vertex>) {
    forall e :: e in es ==> e.u in vs && e.v in vs
  }

  ghost predicate TwoWay(es: seq<Edge>) {
    forall e :: e in es ==> !e.oneWay
  }

  ghost predicate NoSelfLoops(es: seq<Edge>) {
    forall e :: e in es ==> e.u != e.v
  }

  lemma EndsExtended(es: seq<Edge>, e: Edge, vs: set<Vertex>)
    requires Ends(es, vs) && e.u in vs && e.v in vs
    ensures Ends(es + [e], vs)
  {
  }

  lemma {:induction false} AdjWithin(es: seq<Edge>, vs: set<Vertex>, w: Vertex)
    requires Ends(es, vs)
    ensures forall x :: x in Adj(es, w) ==> x in vs
    ensures w !in vs ==> Adj(es, w) == []
  {
    if es != [] {
      assert forall e :: e in es[..|es| - 1] ==> e in es;
      assert es[|es| - 1] in es;
      AdjWithin(es[..|es| - 1], vs, w);
    }
  }

  function Neighbors(edgeSet: map<Vertex, seq<Vertex>>, v: Vertex): seq<Vertex> {
    if v in edgeSet then edgeSet[v] else []
  }

  function Weight(row: map<int, int>, j: int): int {
    if j in row then row[j] else 0
  }

  /** The row of weights of one vertex: an entry for each neighbour, holding how often
      it occurs in the adjacency list, and no other entry. */
  ghost predicate RowHolds(row: map<int, int>, vertexs: seq<Vertex>, us: seq<Vertex>) {
    && (forall j :: j in row ==> 0 <= j < |vertexs| && row[j] > 0)
    && (forall j :: 0 <= j < |vertexs| ==> Weight(row, j) == Times(us, vertexs[j]))
  }

  ghost predicate Distinct(vertexs: seq<Vertex>) {
    forall i, j :: 0 <= i < |vertexs| && 0 <= j < |vertexs| && vertexs[i] == vertexs[j] ==> i == j
  }

  /** One more vertex leaves a row alone. */
  lemma RowKept(row: map<int, int>, vertexs: seq<Vertex>, us: seq<Vertex>, v: Vertex)
    requires RowHolds(row, vertexs, us) && v !in us
    ensures RowHolds(row, vertexs + [v], us)
  {
    TimesIn(us, v);
  }

  function Counted(row: map<int, int>, j: int): map<int, int> {
    row[j := Weight(row, j) + 1]
  }

  /** One more neighbour is counted in its row. */
  lemma RowCounted(row: map<int, int>, vertexs: seq<Vertex>, us: seq<Vertex>, j: nat)
    requires RowHolds(row, vertexs, us) && Distinct(vertexs) && j < |vertexs|
    ensures RowHolds(Counted(row, j), vertexs, us + [vertexs[j]])
  {
  }

  /** Every vertex has the row of its adjacency list. */
  ghost predicate Rows(rows: seq<map<int, int>>, vertexs: seq<Vertex>, es: seq<Edge>) {
    |rows| == |vertexs| && forall i :: 0 <= i < |vertexs| ==> RowHolds(rows[i], vertexs, Adj(es, vertexs[i]))
  }

  lemma RowsKept(rows: seq<map<int, int>>, vertexs: seq<Vertex>, es: seq<Edge>, vs: set<Vertex>, v: Vertex)
    requires Rows(rows, vertexs, es) && Ends(es, vs) && v !in vs
    ensures Rows(rows + [map[]], vertexs + [v], es)
  {
    forall i | 0 <= i <= |vertexs|
      ensures RowHolds((rows + [map[]])[i], vertexs + [v], Adj(es, (vertexs + [v])[i]))
    {
      AdjWithin(es, vs, (vertexs + [v])[i]);
      if i < |vertexs| {
        RowKept(rows[i], vertexs, Adj(es, vertexs[i]), v);
      }
    }
  }

  /** The rows after an edge between vertices number i and j. */
  function RowsLinked(rows: seq<map<int, int>>, i: nat, j: nat, oneWay: bool): seq<map<int, int>>
    requires i < |rows| && j < |rows|
  {
    var once := if oneWay then rows else rows[i := Counted(rows[i], j)];
    once[j := Counted(once[j], i)]
  }

  lemma RowsCounted(rows: seq<map<int, int>>, vertexs: seq<Vertex>, es: seq<Edge>, i: nat, j: nat, oneWay: bool)
    requires Rows(rows, vertexs, es) && Distinct(vertexs) && i < |vertexs| && j < |vertexs|
    ensures Rows(RowsLinked(rows, i, j, oneWay), vertexs, es + [Edge(vertexs[i], vertexs[j], oneWay)])
  {
    var e := Edge(vertexs[i], vertexs[j], oneWay);
    forall k | 0 <= k < |vertexs|
      ensures RowHolds(RowsLinked(rows, i, j, oneWay)[k], vertexs, Adj(es + [e], vertexs[k]))
    {
      AdjGrows(es, e, vertexs[k]);
      var us := Adj(es, vertexs[k]);
      RowCounted(rows[k], vertexs, us, j);
      RowCounted(rows[k], vertexs, us, i);
      RowCounted(Counted(rows[k], j), vertexs, us + [vertexs[j]], i);
    }
  }

  /** Every vertex has its adjacency list. */
  ghost predicate Lists(edgeSet: map<Vertex, seq<Vertex>>, es: seq<Edge>) {
    forall w :: Neighbors(edgeSet, w) == Adj(es, w)
  }

  function ListsLinked(edgeSet: map<Vertex, seq<Vertex>>, e: Edge): map<Vertex, seq<Vertex>> {
    var once := if e.oneWay then edgeSet else edgeSet[e.u := Neighbors(edgeSet, e.u) + [e.v]];
    once[e.v := Neighbors(once, e.v) + [e.u]]
  }

  lemma ListsExtended(edgeSet: map<Vertex, seq<Vertex>>, es: seq<Edge>, e: Edge)
    requires Lists(edgeSet, es)
    ensures Lists(ListsLinked(edgeSet, e), es + [e])
  {
    hide Adj;
    forall w ensures Neighbors(ListsLinked(edgeSet, e), w) == Adj(es + [e], w) {
      assert Neighbors(edgeSet, w) == Adj(es, w);
      AdjGrows(es, e, w);
    }
  }

  lemma RowsLength(rows: seq<map<int, int>>, vertexs: seq<Vertex>, es: seq<Edge>)
    requires Rows(rows, vertexs, es)
    ensures |rows| == |vertexs|
  {
  }

  /** The index and the list of vertices are inverse to each other. */
  ghost predicate Indexed(vertexSet: map<Vertex, int>, vertexs: seq<Vertex>) {
    && (forall v :: v in vertexSet ==> 0 <= vertexSet[v] < |vertexs| && vertexs[vertexSet[v]] == v)
    && (forall i :: 0 <= i < |vertexs| ==> vertexs[i] in vertexSet && vertexSet[vertexs[i]] == i)
  }

  lemma Places(vertexSet: map<Vertex, int>, vertexs: seq<Vertex>)
    requires Indexed(vertexSet, vertexs)
    ensures Distinct(vertexs)
    ensures forall v :: v in vertexSet ==> 0 <= vertexSet[v] < |vertexs| && vertexs[vertexSet[v]] == v
  {
  }

  lemma Member(vertexSet: map<Vertex, int>, vertexs: seq<Vertex>, v: Vertex)
    requires Indexed(vertexSet, vertexs)
    ensures v in vertexSet <==> v in vertexs
  {
  }

  function WithVertex(vertexs: seq<Vertex>, v: Vertex): seq<Vertex> {
    if v in vertexs then vertexs else vertexs + [v]
  }

  class Graph {
    var vertexSet: map<Vertex, int>
    var vertexs: seq<Vertex>
    var edgeSet: map<Vertex, seq<Vertex>>
    var edgeWeight: seq<map<int, int>>
    ghost var edges: seq<Edge>

    ghost predicate Valid()
      reads this
    {
      && Indexed(vertexSet, vertexs)
      && Ends(edges, vertexSet.Keys)
      && edgeSet.Keys <= vertexSet.Keys
      && Lists(edgeSet, edges)
      && Rows(edgeWeight, vertexs, edges)
    }

    constructor ()
      ensures Valid() && edges == [] && vertexs == []
    {
      vertexSet, vertexs, edgeSet, edgeWeight, edges := map[], [], map[], [], [];
    }

    method AddVertex(v: Vertex)
      requires Valid()
      modifies this
      ensures Valid() && edges == old(edges) && edgeSet == old(edgeSet)
      ensures vertexs == WithVertex(old(vertexs), v)
      ensures vertexSet.Keys == old(vertexSet.Keys) + {v}
    {
      hide RowHolds, Adj, Times, Rows;
      Member(vertexSet, vertexs, v);
      if v !in vertexSet {
        RowsKept(edgeWeight, vertexs, edges, vertexSet.Keys, v);
        vertexSet := vertexSet[v := |vertexs|];
        vertexs := vertexs + [v];
        edgeWeight := edgeWeight + [map[]];
      }
    }

    /** Adds an edge, two-way when uni is 0. */
    method AddEdge(u: Vertex, v: Vertex, uni: int)
      requires Valid()
      modifies this
      ensures Valid() && edges == old(edges) + [Edge(u, v, uni != 0)]
      ensures vertexSet.Keys == old(vertexSet.Keys) + {u, v}
      ensures vertexs == WithVertex(WithVertex(old(vertexs), u), v)
    {
      hide RowHolds, Adj, Times, Rows, Lists, Indexed, Distinct, Extended, Ends;
      Member(vertexSet, vertexs, u);
      if u !in vertexSet {
        AddVertex(u);
      }
      Member(vertexSet, vertexs, v);
      if v !in vertexSet {
        AddVertex(v);
      }
      Connect(u, v, uni);
    }

    method Connect(u: Vertex, v: Vertex, uni: int)
      requires Valid() && u in vertexSet && v in vertexSet
      modifies this`edgeSet, this`edgeWeight, this`edges
      ensures Valid() && edges == old(edges) + [Edge(u, v, uni != 0)]
    {
      hide RowHolds, Adj, Times, Rows, Lists, Indexed, Distinct, Extended, Ends;
      ghost var e := Edge(u, v, uni != 0);
      Places(vertexSet, vertexs);
      RowsCounted(edgeWeight, vertexs, edges, vertexSet[u], vertexSet[v], e.oneWay);
      RowsLength(edgeWeight, vertexs, edges);
      ListsExtended(edgeSet, edges, e);
      EndsExtended(edges, e, vertexSet.Keys);
      if uni == 0 {
        edgeSet := edgeSet[u := Neighbors(edgeSet, u) + [v]];
        edgeWeight := edgeWeight[vertexSet[u] := Counted(edgeWeight[vertexSet[u]], vertexSet[v])];
      }
      edgeSet := edgeSet[v := Neighbors(edgeSet, v) + [u]];
      edgeWeight := edgeWeight[vertexSet[v] := Counted(edgeWeight[vertexSet[v]], vertexSet[u])];
      edges := edges + [e];
    }
  }
}
