/** Taking a set of vertices out of the graph and the index, all at once. */
module Removal {
  import opened Values
  import opened Graphs
  import opened Hierarchy

  function Keep(order: seq<Vertex>, gone: set<Vertex>): seq<Vertex> {
    if order == [] then []
    else
      Keep(order[..|order| - 1], gone)
      + if order[|order| - 1] in gone then [] else [order[|order| - 1]]
  }

  function KeepEdges(es: seq<Edge>, gone: set<Vertex>): seq<Edge> {
    if es == [] then []
    else
      KeepEdges(es[..|es| - 1], gone)
      + if es[|es| - 1].target in gone then [] else [es[|es| - 1]]
  }

  function Without(g: Graph, gone: set<Vertex>): Graph {
    Graph(Keep(g.order, gone), g.data - gone, KeepEdges(g.edges, gone), g.next)
  }

  function IdsIn(g: Graph, vs: set<Vertex>): set<string> {
    set v | v in vs && v in g.data :: g.data[v].id
  }

  function Removed(st: State, gone: set<Vertex>): State {
    State(Without(st.graph, gone), st.index - IdsIn(st.graph, gone), st.root)
  }

  /** With a vertex, everything below it goes too. */
  ghost predicate ClosedDown(g: Graph, gone: set<Vertex>) {
    forall e :: e in g.edges && e.source in gone ==> e.target in gone
  }

  // ----- removing one vertex after another --------------------------------------------------

  lemma {:induction false} DropOne(order: seq<Vertex>, gone: set<Vertex>, v: Vertex)
    ensures DropVertex(Keep(order, gone), v) == Keep(order, gone + {v})
  {
    if order != [] {
      var init, last := order[..|order| - 1], order[|order| - 1];
      DropOne(init, gone, v);
      var kept := Keep(order, gone);
      if last in gone {
        assert kept == Keep(init, gone);
      } else {
        assert kept[..|kept| - 1] == Keep(init, gone) && kept[|kept| - 1] == last;
      }
    }
  }

  lemma {:induction false} DropOneEdges(es: seq<Edge>, gone: set<Vertex>, v: Vertex)
    ensures DropInEdges(KeepEdges(es, gone), v) == KeepEdges(es, gone + {v})
  {
    if es != [] {
      var init, last := es[..|es| - 1], es[|es| - 1];
      DropOneEdges(init, gone, v);
      var kept := KeepEdges(es, gone);
      if last.target in gone {
        assert kept == KeepEdges(init, gone);
      } else {
        assert kept[..|kept| - 1] == KeepEdges(init, gone) && kept[|kept| - 1] == last;
      }
    }
  }

  lemma {:induction false} KeptEdges(es: seq<Edge>, gone: set<Vertex>, e: Edge)
    ensures e in KeepEdges(es, gone) <==> e in es && e.target !in gone
  {
    if es != [] {
      KeptEdges(es[..|es| - 1], gone, e);
      assert es == es[..|es| - 1] + [es[|es| - 1]];
    }
  }

  lemma {:induction false} KeptVertices(order: seq<Vertex>, gone: set<Vertex>, v: Vertex)
    ensures v in Keep(order, gone) <==> v in order && v !in gone
  {
    if order != [] {
      KeptVertices(order[..|order| - 1], gone, v);
      assert order == order[..|order| - 1] + [order[|order| - 1]];
    }
  }

  /** Clearing the in-edges and removing the vertex is safe once its children are gone. */
  lemma RemoveNext(g: Graph, gone: set<Vertex>, v: Vertex)
    requires forall e :: e in g.edges && e.source == v ==> e.target in gone
    ensures var cleared := ClearInEdges(Without(g, gone), v);
            && (forall e :: e in cleared.edges ==> e.source != v && e.target != v)
            && RemoveVertex(cleared, v) == Without(g, gone + {v})
  {
    DropOne(g.order, gone, v);
    DropOneEdges(g.edges, gone, v);
    forall e | e in KeepEdges(g.edges, gone + {v}) ensures e.source != v && e.target != v {
      KeptEdges(g.edges, gone + {v}, e);
    }
    assert g.data - gone - {v} == g.data - (gone + {v});
  }

  lemma {:induction false} KeepAll(order: seq<Vertex>)
    ensures Keep(order, {}) == order
  {
    if order != [] { KeepAll(order[..|order| - 1]); }
  }

  lemma {:induction false} KeepAllEdges(es: seq<Edge>)
    ensures KeepEdges(es, {}) == es
  {
    if es != [] { KeepAllEdges(es[..|es| - 1]); }
  }

  lemma WithoutNothing(st: State)
    ensures Removed(st, {}) == st
  {
    KeepAll(st.graph.order);
    KeepAllEdges(st.graph.edges);
  }

  // ----- the forest and the index are kept --------------------------------------------------

  lemma {:induction false} KeepSorted(order: seq<Vertex>, gone: set<Vertex>)
    requires forall i, j :: 0 <= i < j < |order| ==> order[i] < order[j]
    ensures forall i, j :: 0 <= i < j < |Keep(order, gone)| ==> Keep(order, gone)[i] < Keep(order, gone)[j]
  {
    if order != [] {
      var init, last := order[..|order| - 1], order[|order| - 1];
      KeepSorted(init, gone);
      forall i | 0 <= i < |Keep(init, gone)| ensures Keep(init, gone)[i] < last {
        KeptVertices(init, gone, Keep(init, gone)[i]);
      }
    }
  }

  lemma {:induction false} KeepUnique(es: seq<Edge>, gone: set<Vertex>)
    requires UniqueTargets(es)
    ensures UniqueTargets(KeepEdges(es, gone))
  {
    if es != [] {
      var init, last := es[..|es| - 1], es[|es| - 1];
      KeepUnique(init, gone);
      forall i | 0 <= i < |KeepEdges(init, gone)| ensures KeepEdges(init, gone)[i].target != last.target {
        KeptEdges(init, gone, KeepEdges(init, gone)[i]);
      }
    }
  }

  lemma WithoutForest(g: Graph, gone: set<Vertex>)
    requires IsForest(g) && ClosedDown(g, gone)
    ensures IsForest(Without(g, gone))
  {
    KeepSorted(g.order, gone);
    KeepUnique(g.edges, gone);
    forall v ensures v in Keep(g.order, gone) <==> v in g.data - gone { KeptVertices(g.order, gone, v); }
    forall e | e in KeepEdges(g.edges, gone)
      ensures e.source in g.data - gone && e.target in g.data - gone && e.source < e.target
    {
      KeptEdges(g.edges, gone, e);
    }
  }

  lemma RemovedIndexed(st: State, gone: set<Vertex>)
    requires Indexed(st) && ClosedDown(st.graph, gone)
    ensures Indexed(Removed(st, gone))
  {
    WithoutForest(st.graph, gone);
    var g := st.graph;
    forall id | id in st.index && id !in IdsIn(g, gone) ensures st.index[id] !in gone {}
    forall v | v in g.data && v !in gone ensures g.data[v].id !in IdsIn(g, gone) {}
  }

  /** An index entry survives if and only if its vertex does. */
  lemma RemovedIndex(st: State, gone: set<Vertex>, id: string)
    requires Indexed(st)
    ensures id in Removed(st, gone).index <==> id in st.index && st.index[id] !in gone
    ensures id in Removed(st, gone).index ==> Removed(st, gone).index[id] == st.index[id]
  {
  }

  // ----- one id, many ids -------------------------------------------------------------------

  lemma SubtreeClosedDown(g: Graph, v: Vertex)
    requires IsForest(g)
    ensures ClosedDown(g, Subtree(g, v))
  {
    forall e | e in g.edges && e.source in Subtree(g, v) ensures e.target in Subtree(g, v) {
      assert e == Edge(e.source, e.target);
      UnderEdge(g, e.source, e.target);
      UnderTransitive(g, v, e.source, e.target);
    }
  }

  /** An unknown id changes nothing, a known one takes its whole subtree out. */
  ghost function DeleteOne(st: State, id: string): (r: State)
    requires Indexed(st)
    ensures Indexed(r)
  {
    if id !in st.index then st
    else
      SubtreeClosedDown(st.graph, st.index[id]);
      RemovedIndexed(st, Subtree(st.graph, st.index[id]));
      Removed(st, Subtree(st.graph, st.index[id]))
  }

  ghost function DeleteAll(st: State, ids: seq<string>): (r: State)
    requires Indexed(st)
    ensures Indexed(r)
  {
    if ids == [] then st else DeleteOne(DeleteAll(st, ids[..|ids| - 1]), ids[|ids| - 1])
  }

  ghost function StatusOf(st: State, ids: seq<string>): Node
    requires Indexed(st)
  {
    if ids == [] then map[]
    else
      var init, last := ids[..|ids| - 1], ids[|ids| - 1];
      StatusOf(st, init)[last := StrV(if last in DeleteAll(st, init).index then "Success" else "Not found")]
  }
}
