/** What a batch of deletions amounts to. */
module DeleteProperties {
  import opened Values
  import opened Graphs
  import opened Trees
  import opened Hierarchy
  import opened Removal

  // ----- reading the graph that is left -----------------------------------------------------

  lemma {:induction false} SourceKept(es: seq<Edge>, gone: set<Vertex>, x: Vertex)
    requires x !in gone
    ensures SourceOf(KeepEdges(es, gone), x) == SourceOf(es, x)
  {
    if es != [] {
      var init, last := es[..|es| - 1], es[|es| - 1];
      SourceKept(init, gone, x);
      var kept := KeepEdges(es, gone);
      if last.target in gone {
        assert kept == KeepEdges(init, gone);
      } else {
        assert kept[..|kept| - 1] == KeepEdges(init, gone) && kept[|kept| - 1] == last;
      }
    }
  }

  lemma {:induction false} TargetsKept(es: seq<Edge>, gone: set<Vertex>, u: Vertex)
    ensures Targets(KeepEdges(es, gone), u) == Keep(Targets(es, u), gone)
  {
    if es != [] {
      var init, last := es[..|es| - 1], es[|es| - 1];
      TargetsKept(init, gone, u);
      var kept, ts := KeepEdges(es, gone), Targets(es, u);
      if last.target in gone {
        assert kept == KeepEdges(init, gone);
      } else {
        assert kept[..|kept| - 1] == KeepEdges(init, gone) && kept[|kept| - 1] == last;
      }
      if last.source == u {
        assert ts[..|ts| - 1] == Targets(init, u) && ts[|ts| - 1] == last.target;
      } else {
        assert ts == Targets(init, u);
      }
    }
  }

  /** Survivors keep their parent and, in order, their surviving children. */
  lemma SurvivorsKeepNeighbours(g: Graph, gone: set<Vertex>, x: Vertex)
    requires x !in gone
    ensures Parent(Without(g, gone), x) == Parent(g, x)
    ensures Children(Without(g, gone), x) == Keep(Children(g, x), gone)
  {
    SourceKept(g.edges, gone, x);
    TargetsKept(g.edges, gone, x);
  }

  lemma {:induction false} UnderKept(g: Graph, gone: set<Vertex>, v: Vertex, x: Vertex)
    requires IsForest(g) && ClosedDown(g, gone) && IsForest(Without(g, gone)) && x in g.data && x !in gone
    ensures Under(Without(g, gone), v, x) <==> Under(g, v, x)
    decreases x
  {
    SourceKept(g.edges, gone, x);
    var p := Parent(g, x);
    if p.Some? {
      assert Edge(p.value, x) in g.edges;
      assert p.value !in gone;
      UnderKept(g, gone, v, p.value);
    }
  }

  lemma SubtreeKept(g: Graph, gone: set<Vertex>, v: Vertex)
    requires IsForest(g) && ClosedDown(g, gone) && IsForest(Without(g, gone))
    ensures Subtree(Without(g, gone), v) == Subtree(g, v) - gone
  {
    forall x | x in g.data && x !in gone ensures Under(Without(g, gone), v, x) <==> Under(g, v, x) {
      UnderKept(g, gone, v, x);
    }
  }

  /** A subtree none of which is taken out is left exactly as it was. */
  lemma {:induction false} TreeUntouched(g: Graph, gone: set<Vertex>, v: Vertex)
    requires IsForest(g) && IsForest(Without(g, gone)) && v in g.data && Verts(TreeOf(g, v)) !! gone
    ensures TreeOf(Without(g, gone), v) == TreeOf(g, v)
    decreases g.next - v, |Children(g, v)| + 1
  {
    ChildrenFacts(g, v);
    ChildrenFacts(Without(g, gone), v);
    var cs := Children(g, v);
    SurvivorsKeepNeighbours(g, gone, v);
    forall c | c in cs ensures c !in gone { ForestHolds(g, v, cs, c, c); }
    KeepDisjoint(cs, gone);
    ForestUntouched(g, gone, v, cs);
  }

  lemma {:induction false} ForestUntouched(g: Graph, gone: set<Vertex>, u: Vertex, cs: seq<Vertex>)
    requires IsForest(g) && IsForest(Without(g, gone)) && AreChildren(g, u, cs) && AreChildren(Without(g, gone), u, cs)
    requires ForestVerts(ForestOf(g, u, cs)) !! gone
    ensures ForestOf(Without(g, gone), u, cs) == ForestOf(g, u, cs)
    decreases g.next - u, |cs|
  {
    if cs != [] {
      assert cs[0] in cs && Edge(u, cs[0]) in g.edges;
      TreeUntouched(g, gone, cs[0]);
      ForestUntouched(g, gone, u, cs[1..]);
    }
  }

  lemma {:induction false} KeepDisjoint(cs: seq<Vertex>, gone: set<Vertex>)
    requires forall c :: c in cs ==> c !in gone
    ensures Keep(cs, gone) == cs
  {
    if cs != [] { KeepDisjoint(cs[..|cs| - 1], gone); }
  }

  // ----- the batch as one removal -----------------------------------------------------------

  lemma {:induction false} KeepTwice(order: seq<Vertex>, a: set<Vertex>, b: set<Vertex>)
    ensures Keep(Keep(order, a), b) == Keep(order, a + b)
  {
    if order != [] {
      var init, last := order[..|order| - 1], order[|order| - 1];
      KeepTwice(init, a, b);
      var kept := Keep(order, a);
      if last in a {
        assert kept == Keep(init, a);
      } else {
        assert kept[..|kept| - 1] == Keep(init, a) && kept[|kept| - 1] == last;
      }
    }
  }

  lemma {:induction false} KeepEdgesTwice(es: seq<Edge>, a: set<Vertex>, b: set<Vertex>)
    ensures KeepEdges(KeepEdges(es, a), b) == KeepEdges(es, a + b)
  {
    if es != [] {
      var init, last := es[..|es| - 1], es[|es| - 1];
      KeepEdgesTwice(init, a, b);
      var kept := KeepEdges(es, a);
      if last.target in a {
        assert kept == KeepEdges(init, a);
      } else {
        assert kept[..|kept| - 1] == KeepEdges(init, a) && kept[|kept| - 1] == last;
      }
    }
  }

  lemma RemovedTwice(st: State, a: set<Vertex>, b: set<Vertex>)
    ensures Removed(Removed(st, a), b) == Removed(st, a + b)
  {
    var g := st.graph;
    KeepTwice(g.order, a, b);
    KeepEdgesTwice(g.edges, a, b);
    assert g.data - a - b == g.data - (a + b);
    assert IdsIn(g, a) + IdsIn(Without(g, a), b) == IdsIn(g, a + b) by {
      forall id | id in IdsIn(g, a + b) ensures id in IdsIn(g, a) || id in IdsIn(Without(g, a), b) {
        var v :| v in a + b && v in g.data && g.data[v].id == id;
        if v !in a { assert v in Without(g, a).data; }
      }
    }
    assert st.index - IdsIn(g, a) - IdsIn(Without(g, a), b) == st.index - (IdsIn(g, a) + IdsIn(Without(g, a), b));
  }

  /** The vertices at or below a listed one. */
  ghost function Gone(st: State, ids: seq<string>): set<Vertex>
    requires IsForest(st.graph)
  {
    set x | x in st.graph.data && exists id :: id in ids && id in st.index && Under(st.graph, st.index[id], x)
  }

  lemma GoneClosedDown(st: State, ids: seq<string>)
    requires Indexed(st)
    ensures ClosedDown(st.graph, Gone(st, ids))
  {
    var g := st.graph;
    forall e | e in g.edges && e.source in Gone(st, ids) ensures e.target in Gone(st, ids) {
      var id :| id in ids && id in st.index && Under(g, st.index[id], e.source);
      assert e == Edge(e.source, e.target);
      UnderEdge(g, e.source, e.target);
      UnderTransitive(g, st.index[id], e.source, e.target);
    }
  }

  lemma GoneStep(st: State, ids: seq<string>)
    requires Indexed(st) && ids != []
    ensures var init, last := ids[..|ids| - 1], ids[|ids| - 1];
            Gone(st, ids) == Gone(st, init) + if last in st.index then Subtree(st.graph, st.index[last]) else {}
  {
    var init, last := ids[..|ids| - 1], ids[|ids| - 1];
    assert ids == init + [last];
    forall x | x in st.graph.data
      ensures x in Gone(st, ids) <==>
                x in Gone(st, init) || (last in st.index && Under(st.graph, st.index[last], x))
    {
      if x in Gone(st, ids) {
        var id :| id in ids && id in st.index && Under(st.graph, st.index[id], x);
        assert id in init || id == last;
      }
      if x in Gone(st, init) {
        var id :| id in init && id in st.index && Under(st.graph, st.index[id], x);
        assert id in ids;
      }
      assert last in ids;
    }
  }

  /** Deleting a listed id from what is left takes out what its subtree had left. */
  lemma DeletePresent(st: State, gone: set<Vertex>, id: string)
    requires Indexed(st) && ClosedDown(st.graph, gone) && Indexed(Removed(st, gone)) && id in Removed(st, gone).index
    ensures id in st.index
    ensures DeleteOne(Removed(st, gone), id) == Removed(st, gone + Subtree(st.graph, st.index[id]))
  {
    RemovedIndex(st, gone, id);
    RemovedFurther(st, gone, st.index[id]);
  }

  lemma DeleteAbsent(st: State, gone: set<Vertex>, id: string)
    requires Indexed(st) && ClosedDown(st.graph, gone) && id !in Removed(st, gone).index && id in st.index
    ensures gone + Subtree(st.graph, st.index[id]) == gone
  {
    RemovedIndex(st, gone, id);
    SubtreeInside(st.graph, gone, st.index[id]);
  }

  lemma DeleteFrom(st: State, gone: set<Vertex>, r: State, id: string)
    requires Indexed(st) && ClosedDown(st.graph, gone) && Indexed(r) && r == Removed(st, gone)
    ensures DeleteOne(r, id) == Removed(st, gone + if id in st.index then Subtree(st.graph, st.index[id]) else {})
  {
    if id in r.index {
      DeletePresent(st, gone, id);
    } else if id in st.index {
      DeleteAbsent(st, gone, id);
    } else {
      assert gone + {} == gone;
    }
  }

  lemma DeleteStepIsUnion(st: State, ids: seq<string>, init: seq<string>, r: State)
    requires Indexed(st) && ids != [] && init == ids[..|ids| - 1]
    requires r == DeleteAll(st, init) && r == Removed(st, Gone(st, init))
    ensures DeleteOne(r, ids[|ids| - 1]) == Removed(st, Gone(st, ids))
  {
    GoneStep(st, ids);
    GoneClosedDown(st, init);
    DeleteFrom(st, Gone(st, init), r, ids[|ids| - 1]);
  }

  lemma NothingGone(st: State)
    requires Indexed(st)
    ensures Removed(st, Gone(st, [])) == st
  {
    assert Gone(st, []) == {};
    WithoutNothing(st);
  }

  /** A batch removes the union of the listed subtrees, and nothing else. */
  lemma {:induction false} DeleteAllIsUnion(st: State, ids: seq<string>)
    requires Indexed(st)
    ensures DeleteAll(st, ids) == Removed(st, Gone(st, ids))
  {
    if ids == [] {
      NothingGone(st);
    } else {
      var init := ids[..|ids| - 1];
      DeleteAllIsUnion(st, init);
      DeleteStepIsUnion(st, ids, init, DeleteAll(st, init));
    }
  }

  /** v lies at or below a listed vertex. */
  ghost predicate Listed(st: State, ids: seq<string>, v: Vertex)
    requires IsForest(st.graph)
  {
    exists id :: id in ids && id in st.index && Under(st.graph, st.index[id], v)
  }

  /** What lies at or below a listed vertex is gone, with the edges into it and its index entries;
      every other vertex keeps its id, its properties and the edge into it. */
  ghost predicate OnlyListedGone(st: State, ids: seq<string>, st': State)
    requires IsForest(st.graph)
  {
    && (forall v :: v in st'.graph.data <==> v in st.graph.data && !Listed(st, ids, v))
    && (forall v :: v in st'.graph.data ==> st'.graph.data[v] == st.graph.data[v])
    && (forall e :: e in st'.graph.edges <==> e in st.graph.edges && !Listed(st, ids, e.target))
    && (forall id :: id in st'.index <==> id in st.index && !Listed(st, ids, st.index[id]))
    && (forall id :: id in st'.index ==> st'.index[id] == st.index[id])
    && st'.root == st.root
  }

  lemma RemovedData(st: State, ids: seq<string>, st': State)
    requires Indexed(st) && st' == Removed(st, Gone(st, ids))
    ensures forall v :: v in st'.graph.data <==> v in st.graph.data && !Listed(st, ids, v)
    ensures forall v :: v in st'.graph.data ==> st'.graph.data[v] == st.graph.data[v]
  {
  }

  lemma RemovedEdges(st: State, ids: seq<string>, st': State)
    requires Indexed(st) && st' == Removed(st, Gone(st, ids))
    ensures forall e :: e in st'.graph.edges <==> e in st.graph.edges && !Listed(st, ids, e.target)
  {
    forall e ensures e in st'.graph.edges <==> e in st.graph.edges && e.target !in Gone(st, ids) {
      KeptEdges(st.graph.edges, Gone(st, ids), e);
    }
  }

  lemma RemovedEntries(st: State, ids: seq<string>, st': State)
    requires Indexed(st) && st' == Removed(st, Gone(st, ids))
    ensures forall id :: id in st'.index <==> id in st.index && !Listed(st, ids, st.index[id])
    ensures forall id :: id in st'.index ==> st'.index[id] == st.index[id]
  {
    forall id
      ensures id in st'.index <==> id in st.index && st.index[id] !in Gone(st, ids)
      ensures id in st'.index ==> st'.index[id] == st.index[id]
    {
      RemovedIndex(st, Gone(st, ids), id);
    }
  }

  /** A batch takes out exactly what is listed, and leaves the data of everything else alone. */
  lemma SurvivorsKeepData(st: State, ids: seq<string>)
    requires Indexed(st)
    ensures OnlyListedGone(st, ids, DeleteAll(st, ids))
  {
    var st' := DeleteAll(st, ids);
    DeleteAllIsUnion(st, ids);
    RemovedData(st, ids, st');
    RemovedEdges(st, ids, st');
    RemovedEntries(st, ids, st');
  }

  /** A subtree of what is left is what is left of the subtree. */
  lemma RemovedFurther(st: State, gone: set<Vertex>, v: Vertex)
    requires IsForest(st.graph) && ClosedDown(st.graph, gone) && IsForest(Without(st.graph, gone))
    ensures Removed(Removed(st, gone), Subtree(Without(st.graph, gone), v)) == Removed(st, gone + Subtree(st.graph, v))
  {
    SubtreeKept(st.graph, gone, v);
    RemovedTwice(st, gone, Subtree(st.graph, v) - gone);
    assert gone + (Subtree(st.graph, v) - gone) == gone + Subtree(st.graph, v);
  }

  lemma {:induction false} UnderInside(g: Graph, gone: set<Vertex>, v: Vertex, x: Vertex)
    requires IsForest(g) && ClosedDown(g, gone) && v in gone && Under(g, v, x)
    ensures x in gone
    decreases x
  {
    if x != v {
      UnderInside(g, gone, v, Parent(g, x).value);
      assert Edge(Parent(g, x).value, x) in g.edges;
    }
  }

  lemma SubtreeInside(g: Graph, gone: set<Vertex>, v: Vertex)
    requires IsForest(g) && ClosedDown(g, gone) && v in gone
    ensures Subtree(g, v) <= gone
  {
    forall x | x in Subtree(g, v) ensures x in gone { UnderInside(g, gone, v, x); }
  }

  /** The order of a batch, and repetitions in it, make no difference to what is left. */
  lemma BatchOrderIrrelevant(st: State, a: seq<string>, b: seq<string>)
    requires Indexed(st) && forall id :: id in a <==> id in b
    ensures DeleteAll(st, a) == DeleteAll(st, b)
  {
    DeleteAllIsUnion(st, a);
    DeleteAllIsUnion(st, b);
    assert Gone(st, a) == Gone(st, b);
  }

  // ----- the reported statuses --------------------------------------------------------------

  /** Present before the batch, and not at or below a vertex listed earlier. */
  ghost predicate StillThere(st: State, earlier: seq<string>, id: string)
    requires IsForest(st.graph)
  {
    && id in st.index
    && forall a :: a in earlier && a in st.index ==> !Under(st.graph, st.index[a], st.index[id])
  }

  lemma ThereIffNotGone(st: State, earlier: seq<string>, id: string)
    requires Indexed(st)
    ensures id in DeleteAll(st, earlier).index <==> StillThere(st, earlier, id)
  {
    DeleteAllIsUnion(st, earlier);
    RemovedIndex(st, Gone(st, earlier), id);
  }

  /** The status of an id is decided at its last occurrence: success if and only if it was
      there and nothing at or above it had been listed before. */
  lemma {:induction false} StatusDecided(st: State, ids: seq<string>, k: nat)
    requires Indexed(st) && k < |ids| && ids[k] !in ids[k + 1..]
    ensures ids[k] in StatusOf(st, ids)
    ensures StatusOf(st, ids)[ids[k]] == StrV(if StillThere(st, ids[..k], ids[k]) then "Success" else "Not found")
  {
    var init, last := ids[..|ids| - 1], ids[|ids| - 1];
    if k == |ids| - 1 {
      ThereIffNotGone(st, init, last);
    } else {
      assert last in ids[k + 1..];
      assert init[k + 1..] <= ids[k + 1..];
      StatusDecided(st, init, k);
      assert init[..k] == ids[..k];
    }
  }

  /** Every listed id gets a status, and nothing else does. */
  lemma {:induction false} StatusForEachListed(st: State, ids: seq<string>)
    requires Indexed(st)
    ensures StatusOf(st, ids).Keys == Elements(ids)
  {
    if ids != [] {
      StatusForEachListed(st, ids[..|ids| - 1]);
      StatusKeysGrow(st, ids);
      ElementsGrow(ids);
    }
  }

  lemma StatusKeysGrow(st: State, ids: seq<string>)
    requires Indexed(st) && ids != []
    ensures StatusOf(st, ids).Keys == StatusOf(st, ids[..|ids| - 1]).Keys + {ids[|ids| - 1]}
  {
  }

  lemma ElementsGrow(ids: seq<string>)
    requires ids != []
    ensures Elements(ids) == Elements(ids[..|ids| - 1]) + {ids[|ids| - 1]}
  {
    assert ids == ids[..|ids| - 1] + [ids[|ids| - 1]];
  }

  /** Each listed id has a status and nothing else does, decided at its last occurrence. */
  ghost predicate StatusesDecided(st: State, ids: seq<string>, status: Node)
    requires IsForest(st.graph)
  {
    && (forall id :: id in status <==> id in ids)
    && forall k :: 0 <= k < |ids| && ids[k] !in ids[k + 1..] ==>
         status[ids[k]] == StrV(if StillThere(st, ids[..k], ids[k]) then "Success" else "Not found")
  }

  lemma AllDecided(st: State, ids: seq<string>)
    requires Indexed(st)
    ensures StatusesDecided(st, ids, StatusOf(st, ids))
  {
    StatusForEachListed(st, ids);
    forall id ensures id in StatusOf(st, ids) <==> id in Elements(ids) {}
    forall k | 0 <= k < |ids| && ids[k] !in ids[k + 1..]
      ensures StatusOf(st, ids)[ids[k]] == StrV(if StillThere(st, ids[..k], ids[k]) then "Success" else "Not found")
    {
      StatusDecided(st, ids, k);
    }
  }

  // ----- the root ---------------------------------------------------------------------------

  lemma OnlyRootAboveRoot(st: State, v: Vertex)
    requires Valid(st) && st.root.Some? && Under(st.graph, v, st.root.value)
    ensures v == st.root.value
  {
    var p := Parent(st.graph, st.root.value);
    assert p.Some? ==> Edge(p.value, st.root.value) in st.graph.edges;
  }

  /** A batch keeps the whole invariant exactly when it does not list "root" while "root" is
      indexed, which it is after a restore: the root would be removed and still be recorded. */
  lemma DeleteKeepsValid(st: State, ids: seq<string>)
    requires Valid(st)
    ensures Valid(DeleteAll(st, ids)) <==> !("root" in ids && "root" in st.index)
  {
    DeleteAllIsUnion(st, ids);
    var gone := Gone(st, ids);
    if st.root.Some? {
      var r := st.root.value;
      if r in gone {
        var id :| id in ids && id in st.index && Under(st.graph, st.index[id], r);
        OnlyRootAboveRoot(st, st.index[id]);
        assert id == "root";
      }
      if "root" in ids && "root" in st.index {
        assert st.graph.data[st.index["root"]].id == "root";
        assert Under(st.graph, st.index["root"], r);
        assert r in gone;
      }
      RootRemains(st, gone);
    } else {
      RootRemains(st, gone);
      assert "root" !in st.index;
    }
  }

  lemma RootRemains(st: State, gone: set<Vertex>)
    requires Valid(st)
    ensures Rooted(Removed(st, gone)) <==> (st.root.Some? ==> st.root.value !in gone)
  {
    forall e | e in KeepEdges(st.graph.edges, gone) ensures e in st.graph.edges { KeptEdges(st.graph.edges, gone, e); }
  }
}
