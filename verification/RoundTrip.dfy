/** A restored hierarchy is the stored one up to the naming of vertices. */
module RoundTrip {
  import opened Values
  import opened Graphs
  import opened Trees
  import opened Filters
  import opened Aggregates
  import opened Hierarchy
  import opened NodesQuery
  import opened Archives
  import SearchCommand
  import FilterOptionsCommand

  // ----- positions --------------------------------------------------------------------------

  /** Positions keep the order of vertices. */
  lemma PositionsAscend(g: Graph, u: Vertex, v: Vertex)
    requires IsForest(g) && u in g.data && v in g.data
    ensures Position(g.order, u) < |g.order| && g.order[Position(g.order, u)] == u
    ensures Position(g.order, u) < Position(g.order, v) <==> u < v
    ensures Position(g.order, u) == Position(g.order, v) <==> u == v
  {
    PositionFound(g.order, u);
    PositionFound(g.order, v);
  }

  function Places(order: seq<Vertex>, cs: seq<Vertex>): seq<Vertex> {
    if cs == [] then [] else Places(order, cs[..|cs| - 1]) + [Position(order, cs[|cs| - 1])]
  }

  lemma {:induction false} PlacesItems(order: seq<Vertex>, cs: seq<Vertex>)
    ensures |Places(order, cs)| == |cs|
    ensures forall i :: 0 <= i < |cs| ==> Places(order, cs)[i] == Position(order, cs[i])
  {
    if cs != [] { PlacesItems(order, cs[..|cs| - 1]); }
  }

  lemma PlacesTail(order: seq<Vertex>, cs: seq<Vertex>)
    requires cs != []
    ensures |Places(order, cs)| == |cs| && Places(order, cs)[0] == Position(order, cs[0])
    ensures Places(order, cs)[1..] == Places(order, cs[1..])
  {
    PlacesItems(order, cs);
    PlacesItems(order, cs[1..]);
  }

  /** The children of a restored vertex are the restored children, in the same order. */
  lemma {:induction false} TargetsPlaced(g: Graph, es: seq<Edge>, u: Vertex)
    requires IsForest(g) && u in g.data && forall e :: e in es ==> e in g.edges
    ensures Targets(AtPositions(g.order, es), Position(g.order, u)) == Places(g.order, Targets(es, u))
  {
    if es != [] {
      var init, last := es[..|es| - 1], es[|es| - 1];
      assert last in es;
      forall e | e in init ensures e in g.edges { assert e in es; }
      TargetsPlaced(g, init, u);
      PositionsAscend(g, last.source, u);
      var placed, ts := AtPositions(g.order, es), Targets(es, u);
      assert placed[..|placed| - 1] == AtPositions(g.order, init);
      if last.source == u {
        assert ts[..|ts| - 1] == Targets(init, u) && ts[|ts| - 1] == last.target;
      } else {
        assert ts == Targets(init, u);
      }
    }
  }

  // ----- the restored state -----------------------------------------------------------------

  ghost function Restored(st: State): State
    requires IsForest(st.graph)
  {
    Decode(Encode(st.graph))
  }

  lemma EncodeIds(st: State)
    requires Indexed(st)
    ensures WellFormed(Encode(st.graph))
    ensures var vs := Encode(st.graph).vertices;
            |vs| == |st.graph.order| && forall i, j :: 0 <= i < j < |vs| ==> vs[i].id != vs[j].id
  {
    var g := st.graph;
    var a := Encode(g);
    AtPositionsItems(g.order, g.edges);
    forall e | e in a.edges ensures e.source < |a.vertices| && e.target < |a.vertices| {
      var i :| 0 <= i < |g.edges| && a.edges[i] == e;
      assert g.edges[i] in g.edges;
      PositionsAscend(g, g.edges[i].source, g.edges[i].target);
      PositionsAscend(g, g.edges[i].target, g.edges[i].source);
    }
    forall i, j | 0 <= i < j < |g.order| ensures a.vertices[i].id != a.vertices[j].id {
      assert g.order[i] in g.order && g.order[j] in g.order;
    }
  }

  lemma RestoredEdge(st: State, i: nat)
    requires Indexed(st) && i < |st.graph.edges|
    ensures var g, es := st.graph, Restored(st).graph.edges;
            && |es| == |g.edges| && g.edges[i].source in g.data && g.edges[i].target in g.data
            && es[i] == Edge(Position(g.order, g.edges[i].source), Position(g.order, g.edges[i].target))
            && es[i].source < es[i].target < |g.order|
  {
    var g := st.graph;
    AtPositionsItems(g.order, g.edges);
    assert g.edges[i] in g.edges;
    PositionsAscend(g, g.edges[i].source, g.edges[i].target);
    PositionsAscend(g, g.edges[i].target, g.edges[i].source);
  }

  lemma RestoredTargetsUnique(st: State)
    requires Indexed(st)
    ensures UniqueTargets(Restored(st).graph.edges)
  {
    var g, es := st.graph, Restored(st).graph.edges;
    AtPositionsItems(g.order, g.edges);
    forall i, j | 0 <= i < j < |es| ensures es[i].target != es[j].target {
      RestoredEdge(st, i);
      RestoredEdge(st, j);
      PositionsAscend(g, g.edges[i].target, g.edges[j].target);
    }
  }

  lemma DecodedForest(a: Archive)
    requires forall e :: e in a.edges ==> e.source < e.target < |a.vertices|
    requires UniqueTargets(a.edges)
    ensures IsForest(Decode(a).graph)
  {
    var order := UpTo(|a.vertices|);
    UpToItems(|a.vertices|);
    LoadedItems(a.vertices);
    forall v: Vertex ensures v in order <==> v < |a.vertices| {
      if v < |a.vertices| { assert order[v] == v; }
    }
  }

  lemma RestoredForest(st: State)
    requires Indexed(st)
    ensures IsForest(Restored(st).graph)
  {
    var a := Encode(st.graph);
    RestoredTargetsUnique(st);
    forall e | e in a.edges ensures e.source < e.target < |a.vertices| {
      var i :| 0 <= i < |a.edges| && a.edges[i] == e;
      AtPositionsItems(st.graph.order, st.graph.edges);
      RestoredEdge(st, i);
    }
    DecodedForest(a);
  }

  /** The restored vertex bears the id and properties of the stored one. */
  lemma RestoredData(st: State, v: Vertex)
    requires Indexed(st) && v in st.graph.data
    ensures var p := Position(st.graph.order, v);
            p in Restored(st).graph.data && Restored(st).graph.data[p] == st.graph.data[v]
  {
    PositionsAscend(st.graph, v, v);
    LoadedItems(Encode(st.graph).vertices);
  }

  /** Everything indexed is found again, and a restored hierarchy also indexes its root. */
  lemma RestoredIndex(st: State)
    requires Valid(st)
    ensures forall v :: v in st.graph.data ==>
              var id := st.graph.data[v].id;
              id in Restored(st).index && Restored(st).index[id] == Position(st.graph.order, v)
    ensures forall id :: id in st.index ==> id in Restored(st).index
                                            && Restored(st).index[id] == Position(st.graph.order, st.index[id])
    ensures Restored(st).root == match st.root case Some(r) => Some(Position(st.graph.order, r)) case None => None
  {
    var vs := Encode(st.graph).vertices;
    EncodeIds(st);
    LoadedEntries(vs);
    forall v | v in st.graph.data
      ensures Position(st.graph.order, v) < |vs| && vs[Position(st.graph.order, v)] == st.graph.data[v]
    {
      PositionsAscend(st.graph, v, v);
    }
    if LoadedRoot(vs).Some? {
      var v := st.graph.order[LoadedRoot(vs).value];
      assert v in st.graph.order;
    }
  }

  lemma RestoredValid(st: State)
    requires Valid(st)
    ensures Valid(Restored(st))
  {
    var st' := Restored(st);
    EncodeIds(st);
    RestoredForest(st);
    LoadedItems(Encode(st.graph).vertices);
    LoadedEntries(Encode(st.graph).vertices);
    RestoredIndex(st);
    if st.root.Some? { RestoredRootFree(st); }
  }

  lemma RestoredRootFree(st: State)
    requires Valid(st) && st.root.Some?
    ensures forall e :: e in Restored(st).graph.edges ==> e.target != Position(st.graph.order, st.root.value)
  {
    var g := st.graph;
    AtPositionsItems(g.order, g.edges);
    forall e | e in Restored(st).graph.edges ensures e.target != Position(g.order, st.root.value) {
      var i :| 0 <= i < |g.edges| && Restored(st).graph.edges[i] == e;
      assert g.edges[i] in g.edges;
      PositionsAscend(g, g.edges[i].target, st.root.value);
    }
  }

  // ----- storing again ----------------------------------------------------------------------

  lemma PlaceInUpTo(n: nat, i: nat)
    requires i < n
    ensures Position(UpTo(n), i) == i
  {
    UpToItems(n);
    assert UpTo(n)[i] == i;
    PositionFound(UpTo(n), i);
  }

  /** Storing a restored hierarchy gives the archive it was restored from. */
  lemma StoreAgain(st: State)
    requires Indexed(st)
    ensures IsForest(Restored(st).graph) && Encode(Restored(st).graph) == Encode(st.graph)
  {
    var a, g' := Encode(st.graph), Restored(st).graph;
    var n := |a.vertices|;
    RestoredForest(st);
    UpToItems(n);
    LoadedItems(a.vertices);
    AtPositionsItems(g'.order, g'.edges);
    forall i | 0 <= i < |a.edges| ensures AtPositions(g'.order, g'.edges)[i] == a.edges[i] {
      AtPositionsItems(st.graph.order, st.graph.edges);
      RestoredEdge(st, i);
      PlaceInUpTo(n, a.edges[i].source);
      PlaceInUpTo(n, a.edges[i].target);
    }
    assert Encode(g').vertices == a.vertices;
  }

  // ----- the same ordered forest ------------------------------------------------------------

  lemma {:induction false} RestoredTree(st: State, v: Vertex)
    requires Indexed(st) && v in st.graph.data && IsForest(Restored(st).graph)
    ensures Position(st.graph.order, v) in Restored(st).graph.data
    ensures Alike(TreeOf(st.graph, v), TreeOf(Restored(st).graph, Position(st.graph.order, v)))
    decreases st.graph.next - v, |Children(st.graph, v)| + 1
  {
    var g, g' := st.graph, Restored(st).graph;
    RestoredData(st, v);
    ChildrenFacts(g, v);
    ChildrenFacts(g', Position(g.order, v));
    TargetsPlaced(g, g.edges, v);
    RestoredKids(st, v, Children(g, v));
  }

  lemma {:induction false} RestoredKids(st: State, u: Vertex, cs: seq<Vertex>)
    requires Indexed(st) && u in st.graph.data && IsForest(Restored(st).graph)
    requires AreChildren(st.graph, u, cs)
    requires AreChildren(Restored(st).graph, Position(st.graph.order, u), Places(st.graph.order, cs))
    ensures ForestAlike(ForestOf(st.graph, u, cs),
                        ForestOf(Restored(st).graph, Position(st.graph.order, u), Places(st.graph.order, cs)))
    decreases st.graph.next - u, |cs|
  {
    if cs != [] {
      var ps := Places(st.graph.order, cs);
      assert cs[0] in cs && Edge(u, cs[0]) in st.graph.edges;
      PlacesTail(st.graph.order, cs);
      RestoredTree(st, cs[0]);
      RestoredKids(st, u, cs[1..]);
    }
  }

  // ----- queries do not see the naming of vertices ------------------------------------------

  lemma {:induction false} AlikePruned(f: Filters, t: Tree, t': Tree)
    requires Alike(t, t')
    ensures Alike(Pruned(f, t), Pruned(f, t'))
  {
    ForestAlikePruned(f, t.kids, t'.kids);
  }

  lemma {:induction false} ForestAlikePruned(f: Filters, ts: Forest, ts': Forest)
    requires ForestAlike(ts, ts')
    ensures ForestAlike(PrunedForest(f, ts), PrunedForest(f, ts'))
  {
    match (ts, ts')
    case (Nil, Nil) =>
    case (Cons(h, rest), Cons(h', rest')) => AlikePruned(f, h, h'); ForestAlikePruned(f, rest, rest');
  }

  lemma {:induction false} AlikeReadings(kpis: seq<string>, parent: string, t: Tree, t': Tree)
    requires Alike(t, t')
    ensures HasPassing(kpis, t) == HasPassing(kpis, t')
    ensures Suppresses(t) == Suppresses(t') && Raises(t) == Raises(t')
    ensures ModelIds(kpis, parent, t) == ModelIds(kpis, parent, t')
    ensures ChildOf(kpis, parent, t) == ChildOf(kpis, parent, t')
    ensures SearchCommand.PreorderData(t) == SearchCommand.PreorderData(t')
    decreases t
  {
    ForestAlikeReadings(kpis, t.data.id, t.kids, t'.kids);
  }

  lemma {:induction false} ForestAlikeReadings(kpis: seq<string>, parent: string, ts: Forest, ts': Forest)
    requires ForestAlike(ts, ts')
    ensures ForestHasPassing(kpis, ts) == ForestHasPassing(kpis, ts')
    ensures ForestSuppresses(ts) == ForestSuppresses(ts') && ForestRaises(ts) == ForestRaises(ts')
    ensures ForestModelIds(kpis, parent, ts) == ForestModelIds(kpis, parent, ts')
    ensures ChildrenOf(kpis, parent, ts) == ChildrenOf(kpis, parent, ts')
    ensures SearchCommand.ForestPreorderData(ts) == SearchCommand.ForestPreorderData(ts')
    decreases ts
  {
    match (ts, ts')
    case (Nil, Nil) =>
    case (Cons(h, rest), Cons(h', rest')) =>
      AlikeReadings(kpis, parent, h, h');
      ForestAlikeReadings(kpis, parent, rest, rest');
  }

  // ----- the restored hierarchy can be asked the same ---------------------------------------

  lemma {:induction false} AlikeReadable(f: Filters, t: Tree, t': Tree)
    requires Alike(t, t')
    ensures TreeReadable(f, t) <==> TreeReadable(f, t')
  {
    ForestAlikeReadable(f, t.kids, t'.kids);
  }

  lemma {:induction false} ForestAlikeReadable(f: Filters, ts: Forest, ts': Forest)
    requires ForestAlike(ts, ts')
    ensures ForestReadable(f, ts) <==> ForestReadable(f, ts')
  {
    match (ts, ts')
    case (Nil, Nil) =>
    case (Cons(h, rest), Cons(h', rest')) => AlikeReadable(f, h, h'); ForestAlikeReadable(f, rest, rest');
  }

  /** Every query that the stored hierarchy can answer gets the same answer after a restore:
      `nodes` from the root or from any indexed vertex under any filters. It throws
      exactly if it did before, and starts at a vertex with the same data. */
  lemma QueriesSurvive(st: State, f: Filters, kpis: seq<string>, command: Node)
    requires Valid(st) && st.root.Some? && ParentKnown(st, command)
    ensures Valid(Restored(st)) && Restored(st).root.Some? && ParentKnown(Restored(st), command)
    ensures Answer(Restored(st).graph, f, kpis, StartOf(Restored(st), command))
         == Answer(st.graph, f, kpis, StartOf(st, command))
    ensures Readable(Restored(st).graph, f, StartOf(Restored(st), command))
       <==> Readable(st.graph, f, StartOf(st, command))
    ensures Restored(st).graph.data[StartOf(Restored(st), command)] == st.graph.data[StartOf(st, command)]
  {
    RestoredValid(st);
    RestoredIndex(st);
    var v, v' := StartOf(st, command), StartOf(Restored(st), command);
    assert v' == Position(st.graph.order, v);
    RestoredTree(st, v);
    AlikeQueries(st.graph, Restored(st).graph, f, kpis, v, v');
  }

  lemma AlikeQueries(g: Graph, g': Graph, f: Filters, kpis: seq<string>, v: Vertex, v': Vertex)
    requires IsForest(g) && IsForest(g') && v in g.data && v' in g'.data && Alike(TreeOf(g, v), TreeOf(g', v'))
    ensures Answer(g', f, kpis, v') == Answer(g, f, kpis, v)
    ensures Readable(g', f, v') <==> Readable(g, f, v)
    ensures g'.data[v'] == g.data[v]
  {
    AlikePruned(f, TreeOf(g, v), TreeOf(g', v'));
    ForestAlikeReadings(kpis, g.data[v].id, VisitedTree(g, f, v).kids, VisitedTree(g', f, v').kids);
    AlikeReadable(f, VisitedTree(g, f, v), VisitedTree(g', f, v'));
    ReadableTree(g, f, v);
    ReadableTree(g', f, v');
  }

  /** And so do `search`, hits and their order included, and `filteroptions`. */
  lemma WholeTreeQueriesSurvive(st: State, regex: (string, string) -> bool, q: SearchCommand.Query, option: string)
    requires Valid(st) && st.root.Some?
    ensures Valid(Restored(st)) && Restored(st).root.Some?
    ensures var t, t' := TreeOf(st.graph, st.root.value), TreeOf(Restored(st).graph, Restored(st).root.value);
            && SearchCommand.Found(regex, q, t') == SearchCommand.Found(regex, q, t)
            && FilterOptionsCommand.ValuesIn(option, SearchCommand.PreorderData(t'))
               == FilterOptionsCommand.ValuesIn(option, SearchCommand.PreorderData(t))
  {
    RestoredValid(st);
    RestoredIndex(st);
    var r, r' := st.root.value, Restored(st).root.value;
    RestoredTree(st, r);
    AlikeReadings([], "", TreeOf(st.graph, r), TreeOf(Restored(st).graph, r'));
  }
}
