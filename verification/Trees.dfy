/** The ordered tree below a vertex, read off the graph. */
module Trees {
  import opened Values
  import opened Graphs

  datatype Tree = Node(v: Vertex, data: Modelhierarchy, kids: Forest)
  datatype Forest = Nil | Cons(head: Tree, tail: Forest)

  ghost function TreeOf(g: Graph, v: Vertex): (t: Tree)
    requires IsForest(g) && v in g.data
    ensures t.v == v && t.data == g.data[v]
    decreases g.next - v, |Children(g, v)| + 1
  {
    ChildrenFacts(g, v);
    Node(v, g.data[v], ForestOf(g, v, Children(g, v)))
  }

  ghost function ForestOf(g: Graph, u: Vertex, cs: seq<Vertex>): Forest
    requires IsForest(g) && AreChildren(g, u, cs)
    decreases g.next - u, |cs|
  {
    if cs == [] then Nil
    else
      assert cs[0] in cs && Edge(u, cs[0]) in g.edges;
      Cons(TreeOf(g, cs[0]), ForestOf(g, u, cs[1..]))
  }

  ghost function Verts(t: Tree): set<Vertex> {
    {t.v} + ForestVerts(t.kids)
  }

  ghost function ForestVerts(f: Forest): set<Vertex> {
    match f
    case Nil => {}
    case Cons(h, rest) => Verts(h) + ForestVerts(rest)
  }

  /** No vertex occurs twice. */
  ghost predicate Distinct(t: Tree) {
    t.v !in ForestVerts(t.kids) && ForestDistinct(t.kids)
  }

  ghost predicate ForestDistinct(f: Forest) {
    match f
    case Nil => true
    case Cons(h, rest) => Distinct(h) && ForestDistinct(rest) && Verts(h) !! ForestVerts(rest)
  }

  /** The same tree up to the naming of vertices. */
  ghost predicate Alike(t: Tree, t': Tree) {
    t.data == t'.data && ForestAlike(t.kids, t'.kids)
  }

  ghost predicate ForestAlike(f: Forest, f': Forest) {
    match (f, f')
    case (Nil, Nil) => true
    case (Cons(h, rest), Cons(h', rest')) => Alike(h, h') && ForestAlike(rest, rest')
    case _ => false
  }

  // ----- the tree below v holds exactly the vertices under v, each once --------------------

  lemma {:induction false} TreeSound(g: Graph, v: Vertex, x: Vertex)
    requires IsForest(g) && v in g.data && x in Verts(TreeOf(g, v))
    ensures Under(g, v, x)
    decreases g.next - v, |Children(g, v)| + 1
  {
    ChildrenFacts(g, v);
    if x != v {
      var c := ForestSound(g, v, Children(g, v), x);
      UnderEdge(g, v, c);
      UnderTransitive(g, v, c, x);
    }
  }

  lemma {:induction false} ForestSound(g: Graph, u: Vertex, cs: seq<Vertex>, x: Vertex) returns (c: Vertex)
    requires IsForest(g) && AreChildren(g, u, cs)
    requires x in ForestVerts(ForestOf(g, u, cs))
    ensures c in cs && Under(g, c, x)
    decreases g.next - u, |cs|
  {
    assert cs[0] in cs && Edge(u, cs[0]) in g.edges;
    if x in Verts(TreeOf(g, cs[0])) {
      c := cs[0];
      TreeSound(g, c, x);
    } else {
      c := ForestSound(g, u, cs[1..], x);
    }
  }

  lemma {:induction false} ForestHolds(g: Graph, u: Vertex, cs: seq<Vertex>, c: Vertex, x: Vertex)
    requires IsForest(g) && AreChildren(g, u, cs)
    requires c in cs && x in Verts(TreeOf(g, c))
    ensures x in ForestVerts(ForestOf(g, u, cs))
  {
    if cs[0] != c { ForestHolds(g, u, cs[1..], c, x); }
  }

  lemma {:induction false} TreeClosed(g: Graph, v: Vertex, p: Vertex, x: Vertex)
    requires IsForest(g) && v in g.data && p in Verts(TreeOf(g, v)) && Edge(p, x) in g.edges
    ensures x in Verts(TreeOf(g, v))
    decreases g.next - v, |Children(g, v)| + 1
  {
    ChildrenFacts(g, v);
    if p == v {
      ForestHolds(g, v, Children(g, v), x, x);
    } else {
      ForestClosed(g, v, Children(g, v), p, x);
    }
  }

  lemma {:induction false} ForestClosed(g: Graph, u: Vertex, cs: seq<Vertex>, p: Vertex, x: Vertex)
    requires IsForest(g) && AreChildren(g, u, cs)
    requires p in ForestVerts(ForestOf(g, u, cs)) && Edge(p, x) in g.edges
    ensures x in ForestVerts(ForestOf(g, u, cs))
    decreases g.next - u, |cs|
  {
    assert cs[0] in cs && Edge(u, cs[0]) in g.edges;
    if p in Verts(TreeOf(g, cs[0])) {
      TreeClosed(g, cs[0], p, x);
    } else {
      ForestClosed(g, u, cs[1..], p, x);
    }
  }

  lemma {:induction false} TreeComplete(g: Graph, v: Vertex, x: Vertex)
    requires IsForest(g) && v in g.data && Under(g, v, x)
    ensures x in Verts(TreeOf(g, v))
    decreases x
  {
    if x != v {
      TreeComplete(g, v, Parent(g, x).value);
      TreeClosed(g, v, Parent(g, x).value, x);
    }
  }

  /** The vertices of the tree are those from which climbing reaches v. */
  lemma TreeIsSubtree(g: Graph, v: Vertex)
    requires IsForest(g) && v in g.data
    ensures Verts(TreeOf(g, v)) == Subtree(g, v)
  {
    forall x ensures x in Verts(TreeOf(g, v)) <==> x in Subtree(g, v) {
      if x in Verts(TreeOf(g, v)) { TreeSound(g, v, x); }
      if x in Subtree(g, v) { TreeComplete(g, v, x); }
    }
  }

  /** In-degree one makes the tree free of repetition. */
  lemma {:induction false} TreeDistinct(g: Graph, v: Vertex)
    requires IsForest(g) && v in g.data
    ensures Distinct(TreeOf(g, v))
    decreases g.next - v, |Children(g, v)| + 1
  {
    ChildrenFacts(g, v);
    var cs := Children(g, v);
    ForestDistinctness(g, v, cs);
    if v in ForestVerts(ForestOf(g, v, cs)) {
      var c := ForestSound(g, v, cs, v);
      UnderBounds(g, c, v);
    }
  }

  lemma {:induction false} ForestDistinctness(g: Graph, u: Vertex, cs: seq<Vertex>)
    requires IsForest(g) && AreChildren(g, u, cs)
    requires NoDuplicates(cs)
    ensures ForestDistinct(ForestOf(g, u, cs))
    decreases g.next - u, |cs|
  {
    if cs != [] {
      assert cs[0] in cs && Edge(u, cs[0]) in g.edges;
      TreeDistinct(g, cs[0]);
      ForestDistinctness(g, u, cs[1..]);
      forall x | x in Verts(TreeOf(g, cs[0])) ensures x !in ForestVerts(ForestOf(g, u, cs[1..])) {
        if x in ForestVerts(ForestOf(g, u, cs[1..])) {
          TreeSound(g, cs[0], x);
          var c := ForestSound(g, u, cs[1..], x);
          SiblingsApart(g, u, cs[0], c, x);
        }
      }
    }
  }
}
