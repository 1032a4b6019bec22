/** The hierarchy graph: an ordered vertex list and a list of edges in insertion order.

    A vertex descriptor is opaque to the program. Here descriptors are numbered in the
    order in which `add_vertex` hands them out, so the vertex list is always ascending.
    The out-edges of a vertex are the edges leaving it, in insertion order.
 */
module Graphs {
  import opened Values

  type Vertex = nat

  datatype Edge = Edge(source: Vertex, target: Vertex)

  datatype Graph = Graph(order: seq<Vertex>, data: map<Vertex, Modelhierarchy>, edges: seq<Edge>, next: Vertex)

  const EMPTY: Graph := Graph([], map[], [], 0)

  /** The shape the commands rely on: edges join live vertices and point forward in the
      vertex list, and no vertex has two in-edges. */
  ghost predicate IsForest(g: Graph) {
    && (forall i, j :: 0 <= i < j < |g.order| ==> g.order[i] < g.order[j])
    && (forall v :: v in g.order <==> v in g.data)
    && (forall v :: v in g.data ==> v < g.next)
    && (forall e :: e in g.edges ==> e.source in g.data && e.target in g.data && e.source < e.target)
    && UniqueTargets(g.edges)
  }

  ghost predicate UniqueTargets(es: seq<Edge>) {
    forall i, j :: 0 <= i < j < |es| ==> es[i].target != es[j].target
  }

  // ----- reading ------------------------------------------------------------------------

  function Targets(es: seq<Edge>, u: Vertex): (cs: seq<Vertex>) {
    if es == [] then []
    else
      var last := es[|es| - 1];
      Targets(es[..|es| - 1], u) + if last.source == u then [last.target] else []
  }

  function Children(g: Graph, u: Vertex): seq<Vertex> {
    Targets(g.edges, u)
  }

  function SourceOf(es: seq<Edge>, x: Vertex): (p: Option<Vertex>)
    ensures p.Some? ==> Edge(p.value, x) in es
  {
    if es == [] then None
    else if es[|es| - 1].target == x then Some(es[|es| - 1].source)
    else SourceOf(es[..|es| - 1], x)
  }

  function Parent(g: Graph, x: Vertex): Option<Vertex> {
    SourceOf(g.edges, x)
  }

  /** v is x or an ancestor of x, found by climbing from x. */
  ghost predicate Under(g: Graph, v: Vertex, x: Vertex)
    requires IsForest(g)
    decreases x
  {
    && x in g.data
    && (x == v || (Parent(g, x).Some? && Under(g, v, Parent(g, x).value)))
  }

  ghost function Subtree(g: Graph, v: Vertex): set<Vertex>
    requires IsForest(g)
  {
    set x | x in g.data && Under(g, v, x)
  }

  /** Some of the children of u. */
  ghost predicate AreChildren(g: Graph, u: Vertex, cs: seq<Vertex>) {
    forall c :: c in cs ==> Edge(u, c) in g.edges
  }

  // ----- writing ------------------------------------------------------------------------

  function AddVertex(g: Graph, d: Modelhierarchy): Graph {
    Graph(g.order + [g.next], g.data[g.next := d], g.edges, g.next + 1)
  }

  function AddEdge(g: Graph, u: Vertex, v: Vertex): Graph {
    g.(edges := g.edges + [Edge(u, v)])
  }

  function DropVertex(order: seq<Vertex>, v: Vertex): seq<Vertex> {
    if order == [] then []
    else
      var rest := DropVertex(order[..|order| - 1], v);
      if order[|order| - 1] == v then rest else rest + [order[|order| - 1]]
  }

  function DropInEdges(es: seq<Edge>, v: Vertex): seq<Edge> {
    if es == [] then []
    else
      var rest := DropInEdges(es[..|es| - 1], v);
      if es[|es| - 1].target == v then rest else rest + [es[|es| - 1]]
  }

  function ClearInEdges(g: Graph, v: Vertex): Graph {
    g.(edges := DropInEdges(g.edges, v))
  }

  /** Removing a vertex that still has edges leaves them dangling. */
  function RemoveVertex(g: Graph, v: Vertex): Graph
    requires forall e :: e in g.edges ==> e.source != v && e.target != v
  {
    g.(order := DropVertex(g.order, v), data := g.data - {v})
  }

  // ----- lemmas -------------------------------------------------------------------------

  lemma {:induction false} TargetsMember(es: seq<Edge>, u: Vertex, c: Vertex)
    ensures c in Targets(es, u) <==> Edge(u, c) in es
  {
    if es != [] {
      var init, last := es[..|es| - 1], es[|es| - 1];
      TargetsMember(init, u, c);
      assert es == init + [last];
    }
  }

  lemma {:induction false} TargetsUnique(es: seq<Edge>, u: Vertex)
    requires UniqueTargets(es)
    ensures NoDuplicates(Targets(es, u))
  {
    if es != [] {
      var init, last := es[..|es| - 1], es[|es| - 1];
      TargetsUnique(init, u);
      TargetsMember(init, u, last.target);
    }
  }

  lemma {:induction false} SourceUnique(es: seq<Edge>, p: Vertex, x: Vertex)
    requires UniqueTargets(es)
    ensures SourceOf(es, x) == Some(p) <==> Edge(p, x) in es
  {
    if es != [] {
      var init, last := es[..|es| - 1], es[|es| - 1];
      SourceUnique(init, p, x);
      assert es == init + [last];
    }
  }

  lemma ChildrenFacts(g: Graph, u: Vertex)
    requires IsForest(g)
    ensures NoDuplicates(Children(g, u))
    ensures forall c :: c in Children(g, u) <==> Edge(u, c) in g.edges
    ensures forall c :: c in Children(g, u) ==> c in g.data && u < c < g.next && Parent(g, c) == Some(u)
  {
    TargetsUnique(g.edges, u);
    forall c ensures c in Children(g, u) <==> Edge(u, c) in g.edges { TargetsMember(g.edges, u, c); }
    forall c | c in Children(g, u) ensures Parent(g, c) == Some(u) { SourceUnique(g.edges, u, c); }
  }

  lemma {:induction false} UnderBounds(g: Graph, v: Vertex, x: Vertex)
    requires IsForest(g) && Under(g, v, x)
    ensures v <= x && v in g.data
    decreases x
  {
    if x != v { UnderBounds(g, v, Parent(g, x).value); }
  }

  lemma {:induction false} UnderTransitive(g: Graph, u: Vertex, v: Vertex, x: Vertex)
    requires IsForest(g) && Under(g, u, v) && Under(g, v, x)
    ensures Under(g, u, x)
    decreases x
  {
    if x != v { UnderTransitive(g, u, v, Parent(g, x).value); }
  }

  lemma UnderEdge(g: Graph, u: Vertex, c: Vertex)
    requires IsForest(g) && Edge(u, c) in g.edges
    ensures Under(g, u, c)
  {
    SourceUnique(g.edges, u, c);
  }

  /** Two ancestors of one vertex lie on one line. */
  lemma {:induction false} UnderLinear(g: Graph, u: Vertex, v: Vertex, x: Vertex)
    requires IsForest(g) && Under(g, u, x) && Under(g, v, x)
    ensures Under(g, u, v) || Under(g, v, u)
    decreases x
  {
    if x != u && x != v { UnderLinear(g, u, v, Parent(g, x).value); }
  }

  lemma SiblingsApart(g: Graph, u: Vertex, c: Vertex, d: Vertex, x: Vertex)
    requires IsForest(g) && Edge(u, c) in g.edges && Edge(u, d) in g.edges && c != d
    ensures !(Under(g, c, x) && Under(g, d, x))
  {
    if Under(g, c, x) && Under(g, d, x) {
      UnderLinear(g, c, d, x);
      SourceUnique(g.edges, u, c);
      SourceUnique(g.edges, u, d);
      if Under(g, c, d) { UnderBounds(g, c, u); } else { UnderBounds(g, d, u); }
    }
  }
}
