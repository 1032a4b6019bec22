/** Storing and restoring: the vertices in list order, the edges by list position. */
module Archives {
  import opened Values
  import opened Graphs
  import opened Hierarchy

  /** The content of a serialized hierarchy, compression and byte format left aside. */
  datatype Archive = Archive(vertices: seq<Modelhierarchy>, edges: seq<Edge>)

  /** The last place of v in the vertex list. */
  function Position(order: seq<Vertex>, v: Vertex): nat {
    if order == [] then 0
    else if order[|order| - 1] == v then |order| - 1
    else Position(order[..|order| - 1], v)
  }

  function AtPositions(order: seq<Vertex>, es: seq<Edge>): seq<Edge> {
    if es == [] then []
    else
      var last := es[|es| - 1];
      AtPositions(order, es[..|es| - 1]) + [Edge(Position(order, last.source), Position(order, last.target))]
  }

  ghost function Encode(g: Graph): Archive
    requires IsForest(g)
  {
    Archive(seq(|g.order|, i requires 0 <= i < |g.order| => g.data[g.order[i]]), AtPositions(g.order, g.edges))
  }

  /** What `load` builds: one vertex for each entry, the edges between them, and the index. */
  function LoadedData(vs: seq<Modelhierarchy>): map<Vertex, Modelhierarchy> {
    if vs == [] then map[] else LoadedData(vs[..|vs| - 1])[|vs| - 1 := vs[|vs| - 1]]
  }

  function UpTo(n: nat): seq<Vertex> {
    if n == 0 then [] else UpTo(n - 1) + [n - 1]
  }

  function LoadedIndex(vs: seq<Modelhierarchy>): map<string, Vertex> {
    if vs == [] then map[] else LoadedIndex(vs[..|vs| - 1])[vs[|vs| - 1].id := |vs| - 1]
  }

  function LoadedRoot(vs: seq<Modelhierarchy>): Option<Vertex> {
    if vs == [] then None
    else if vs[|vs| - 1].id == "root" then Some(|vs| - 1)
    else LoadedRoot(vs[..|vs| - 1])
  }

  function Decode(a: Archive): State {
    State(Graph(UpTo(|a.vertices|), LoadedData(a.vertices), a.edges, |a.vertices|),
          LoadedIndex(a.vertices), LoadedRoot(a.vertices))
  }

  ghost predicate WellFormed(a: Archive) {
    forall e :: e in a.edges ==> e.source < |a.vertices| && e.target < |a.vertices|
  }

  // ----- the commands -----------------------------------------------------------------------

  lemma {:induction false} PositionFound(order: seq<Vertex>, v: Vertex)
    requires v in order
    ensures Position(order, v) < |order| && order[Position(order, v)] == v
  {
    if order[|order| - 1] != v { PositionFound(order[..|order| - 1], v); }
  }

  /** The archive lists what the vertices carry, in list order, and the edges, in order, by the
      places of their ends. */
  ghost predicate Describes(a: Archive, g: Graph) {
    && |a.vertices| == |g.order| && |a.edges| == |g.edges|
    && (forall i :: 0 <= i < |g.order| ==> g.order[i] in g.data && a.vertices[i] == g.data[g.order[i]])
    && forall i :: 0 <= i < |g.edges| ==>
         && a.edges[i].source < |g.order| && g.order[a.edges[i].source] == g.edges[i].source
         && a.edges[i].target < |g.order| && g.order[a.edges[i].target] == g.edges[i].target
  }

  lemma {:induction false} AtPositionsItems(order: seq<Vertex>, es: seq<Edge>)
    ensures |AtPositions(order, es)| == |es|
    ensures forall i :: 0 <= i < |es| ==>
              AtPositions(order, es)[i] == Edge(Position(order, es[i].source), Position(order, es[i].target))
  {
    if es != [] { AtPositionsItems(order, es[..|es| - 1]); }
  }

  lemma EncodeDescribes(g: Graph)
    requires IsForest(g)
    ensures Describes(Encode(g), g)
  {
    AtPositionsItems(g.order, g.edges);
    forall i | 0 <= i < |g.order| ensures g.order[i] in g.data { assert g.order[i] in g.order; }
    forall i | 0 <= i < |g.edges|
      ensures Encode(g).edges[i].source < |g.order| && g.order[Encode(g).edges[i].source] == g.edges[i].source
      ensures Encode(g).edges[i].target < |g.order| && g.order[Encode(g).edges[i].target] == g.edges[i].target
    {
      assert g.edges[i] in g.edges;
      PositionFound(g.order, g.edges[i].source);
      PositionFound(g.order, g.edges[i].target);
    }
  }

  lemma DecodeDescribed(a: Archive)
    requires WellFormed(a)
    ensures Describes(a, Decode(a).graph)
  {
    UpToItems(|a.vertices|);
    LoadedItems(a.vertices);
    forall i | 0 <= i < |a.edges|
      ensures a.edges[i].source < |a.vertices| && a.edges[i].target < |a.vertices|
    {
      assert a.edges[i] in a.edges;
    }
  }

  /** With different ids the index names exactly the entries, each at its vertex, and the root is
      the one called "root". */
  ghost predicate NamesEntries(a: Archive, st: State) {
    (forall i, j :: 0 <= i < j < |a.vertices| ==> a.vertices[i].id != a.vertices[j].id) ==>
      && (forall id :: id in st.index ==> exists i :: 0 <= i < |a.vertices| && a.vertices[i].id == id)
      && (forall i :: 0 <= i < |a.vertices| && i < |st.graph.order| ==>
            && a.vertices[i].id in st.index && st.index[a.vertices[i].id] == st.graph.order[i]
            && (a.vertices[i].id == "root" ==> st.root == Some(st.graph.order[i])))
      && (st.root.Some? ==> exists i :: 0 <= i < |a.vertices| && a.vertices[i].id == "root")
  }

  lemma DecodeNames(a: Archive)
    ensures NamesEntries(a, Decode(a))
  {
    if forall i, j :: 0 <= i < j < |a.vertices| ==> a.vertices[i].id != a.vertices[j].id {
      UpToItems(|a.vertices|);
      LoadedEntries(a.vertices);
    }
  }

  method Store(h: TagHierarchy) returns (a: Archive)
    requires IsForest(h.graph)
    ensures a == Encode(h.graph) && Describes(a, h.graph)
  {
    EncodeDescribes(h.graph);
    var vs, indices := SaveVertices(h.graph);
    var es := SaveEdges(h.graph, indices);
    a := Archive(vs, es);
  }

  method SaveVertices(g: Graph) returns (vs: seq<Modelhierarchy>, indices: map<Vertex, nat>)
    requires IsForest(g)
    ensures vs == Encode(g).vertices
    ensures forall v :: v in g.data ==> v in indices && indices[v] == Position(g.order, v)
  {
    indices := map[];
    vs := [];
    for i := 0 to |g.order|
      invariant |vs| == i && forall k :: 0 <= k < i ==> vs[k] == Encode(g).vertices[k]
      invariant forall k :: 0 <= k < i ==> g.order[k] in indices && indices[g.order[k]] == k
    {
      assert g.order[i] in g.order;
      indices := indices[g.order[i] := i];
      vs := vs + [g.data[g.order[i]]];
    }
    forall v | v in g.data ensures v in indices && indices[v] == Position(g.order, v) {
      PositionFound(g.order, v);
    }
  }

  method SaveEdges(g: Graph, indices: map<Vertex, nat>) returns (es: seq<Edge>)
    requires IsForest(g)
    requires forall v :: v in g.data ==> v in indices && indices[v] == Position(g.order, v)
    ensures es == Encode(g).edges
  {
    es := [];
    AtPositionsItems(g.order, g.edges);
    for i := 0 to |g.edges|
      invariant |es| == i && forall k :: 0 <= k < i ==> es[k] == AtPositions(g.order, g.edges)[k]
    {
      var e := g.edges[i];
      assert e in g.edges;
      es := es + [Edge(indices[e.source], indices[e.target])];
    }
  }

  method Restore(h: TagHierarchy, a: Archive) returns (reply: seq<Node>)
    requires WellFormed(a)
    modifies h
    ensures h.View() == Decode(a) && Describes(a, h.graph) && NamesEntries(a, h.View())
    ensures reply == [map["success" := BoolV(true)]]
  {
    DecodeDescribed(a);
    DecodeNames(a);
    Load(h, a);
    reply := [map["success" := BoolV(true)]];
  }

  /** The vertices and edges are read, and index and root rebuilt from the vertices. */
  method Load(h: TagHierarchy, a: Archive)
    requires WellFormed(a)
    modifies h
    ensures h.View() == Decode(a)
  {
    h.ClearGraph();
    LoadGraph(h, a);
    UpToItems(|a.vertices|);
    LoadedItems(a.vertices);
    var n := |h.graph.order|;
    for i := 0 to n
      invariant h.graph == Decode(a).graph
      invariant h.vertices == LoadedIndex(a.vertices[..i]) && h.root == LoadedRoot(a.vertices[..i])
    {
      var v := h.graph.order[i];
      assert a.vertices[..i + 1][..i] == a.vertices[..i];
      if h.graph.data[v].id == "root" {
        h.root := Some(v);
      }
      h.vertices := h.vertices[h.graph.data[v].id := v];
    }
    assert a.vertices[..|a.vertices|] == a.vertices;
  }

  method LoadGraph(h: TagHierarchy, a: Archive)
    requires WellFormed(a) && h.View() == CLEARED
    modifies h
    ensures h.View() == State(Decode(a).graph, map[], None)
  {
    var verts: seq<Vertex> := [];
    for i := 0 to |a.vertices|
      invariant h.View() == State(Graph(UpTo(i), LoadedData(a.vertices[..i]), [], i), map[], None)
      invariant |verts| == i && forall k :: 0 <= k < i ==> verts[k] == k
    {
      assert a.vertices[..i + 1][..i] == a.vertices[..i];
      verts := verts + [h.graph.next];
      h.graph := AddVertex(h.graph, a.vertices[i]);
    }
    assert a.vertices[..|a.vertices|] == a.vertices;
    for i := 0 to |a.edges|
      invariant h.View()
             == State(Graph(UpTo(|a.vertices|), LoadedData(a.vertices), a.edges[..i], |a.vertices|), map[], None)
    {
      assert a.edges[i] in a.edges && a.edges[..i + 1] == a.edges[..i] + [a.edges[i]];
      h.graph := AddEdge(h.graph, verts[a.edges[i].source], verts[a.edges[i].target]);
    }
    assert a.edges[..|a.edges|] == a.edges;
  }

  lemma {:induction false} UpToItems(n: nat)
    ensures |UpTo(n)| == n && forall i :: 0 <= i < n ==> UpTo(n)[i] == i
  {
    if n > 0 { UpToItems(n - 1); }
  }

  lemma {:induction false} LoadedItems(vs: seq<Modelhierarchy>)
    ensures forall v: Vertex :: v in LoadedData(vs) <==> v < |vs|
    ensures forall v: nat :: v < |vs| ==> LoadedData(vs)[v] == vs[v]
  {
    if vs != [] {
      LoadedItems(vs[..|vs| - 1]);
      forall v: Vertex ensures v in LoadedData(vs) <==> v < |vs| {
        assert v in LoadedData(vs) <==> v in LoadedData(vs[..|vs| - 1]) || v == |vs| - 1;
      }
    }
  }

  lemma {:induction false} LoadedEntries(vs: seq<Modelhierarchy>)
    requires forall i, j :: 0 <= i < j < |vs| ==> vs[i].id != vs[j].id
    ensures forall id :: id in LoadedIndex(vs) ==> LoadedIndex(vs)[id] < |vs| && vs[LoadedIndex(vs)[id]].id == id
    ensures forall i: nat :: i < |vs| ==> vs[i].id in LoadedIndex(vs) && LoadedIndex(vs)[vs[i].id] == i
    ensures LoadedRoot(vs).Some? ==> LoadedRoot(vs).value < |vs| && vs[LoadedRoot(vs).value].id == "root"
    ensures forall i: nat :: i < |vs| && vs[i].id == "root" ==> LoadedRoot(vs) == Some(i)
  {
    if vs != [] { LoadedEntries(vs[..|vs| - 1]); }
  }
}
