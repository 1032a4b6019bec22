/** Hierarchies on which a parent's entry and the query on it disagree, one family for each
    hypothesis of the cross-query laws, and one that loses a child to a dropped filter. Each
    family has an instance built by `populate_graph` that can be queried. */
module Limits {
  import opened Values
  import opened Graphs
  import opened Filters
  import opened Visitor
  import opened Aggregates
  import opened Hierarchy
  import opened NodesQuery
  import opened NaiveNodes
  import opened CrossQuery
  import opened PopulateCommand
  import Monotonicity

  // ----- families ---------------------------------------------------------------------------

  /** u has the leaves c and d, in that order. */
  ghost predicate TwoLeaves(g: Graph, u: Vertex, c: Vertex, d: Vertex) {
    && IsForest(g) && {u, c, d} <= g.data.Keys
    && Children(g, u) == [c, d] && Children(g, c) == [] && Children(g, d) == []
  }

  /** u has the one child c, and c the one child d, a leaf. */
  ghost predicate Chain(g: Graph, u: Vertex, c: Vertex, d: Vertex) {
    && IsForest(g) && {u, c, d} <= g.data.Keys
    && Children(g, u) == [c] && Children(g, c) == [d] && Children(g, d) == []
  }

  lemma LeafReaches(g: Graph, f: Filters, d: Vertex, x: Vertex)
    requires IsForest(g) && d in g.data && Children(g, d) == []
    ensures ClearPath(g, f, d, x) ==> x == d
    ensures !Exposed(g, f, d, x)
  {
    ChildrenFacts(g, d);
    if ClearPath(g, f, d, x) && x != d { LeafReachesNothing(g, f, d, x); }
    if Exposed(g, f, d, x) { var k := ExposedChild(g, f, d, x); }
  }

  lemma {:induction false} LeafReachesNothing(g: Graph, f: Filters, d: Vertex, x: Vertex)
    requires IsForest(g) && d in g.data && (forall c :: Edge(d, c) !in g.edges)
    requires ClearPath(g, f, d, x)
    ensures x == d
    decreases x
  {
    if x != d { LeafReachesNothing(g, f, d, Parent(g, x).value); }
  }

  /** Whatever is exposed to u is one of the leaves, and both are exposed. */
  lemma TwoLeavesExposed(g: Graph, u: Vertex, c: Vertex, d: Vertex, x: Vertex)
    requires TwoLeaves(g, u, c, d)
    ensures Exposed(g, NO_FILTERS, u, x) <==> x == c || x == d
  {
    ChildrenFacts(g, u);
    assert c in Children(g, u) && d in Children(g, u);
    if Exposed(g, NO_FILTERS, u, x) {
      var k := ExposedChild(g, NO_FILTERS, u, x);
      assert k in Children(g, u);
      LeafReaches(g, NO_FILTERS, k, x);
    }
  }

  /** A leaf is returned if and only if it passes, and nothing else is reached from it. */
  lemma TwoLeavesReturned(g: Graph, kpis: seq<string>, u: Vertex, c: Vertex, d: Vertex, k: Vertex)
    requires TwoLeaves(g, u, c, d)
    ensures ReturnedChild(g, NO_FILTERS, kpis, u, k) <==> (k == c || k == d) && IsPassing(kpis, g.data[k])
    ensures k == c || k == d ==> forall e :: ClearPath(g, NO_FILTERS, k, e) <==> e == k
    ensures k == c || k == d ==> forall e :: !Exposed(g, NO_FILTERS, k, e)
  {
    ChildrenFacts(g, u);
    assert Edge(u, k) in g.edges <==> k in Children(g, u);
    if k == c || k == d {
      forall e ensures ClearPath(g, NO_FILTERS, k, e) <==> e == k { LeafReaches(g, NO_FILTERS, k, e); }
      forall e ensures !Exposed(g, NO_FILTERS, k, e) { LeafReaches(g, NO_FILTERS, k, e); }
      if IsPassing(kpis, g.data[k]) { assert Witness(g, NO_FILTERS, kpis, k, k); }
    }
  }

  /** With a KPI filter a folder stays suppressed by an element the filter hides, */
  lemma KpiFilterBreaksSuppression(g: Graph, kpis: seq<string>, u: Vertex, c: Vertex, d: Vertex)
    requires TwoLeaves(g, u, c, d) && !IsElement(g.data[u])
    requires IsElement(g.data[c]) && OwnSuppressed(g.data[c]) && !IsPassing(kpis, g.data[c])
    requires IsPassing(kpis, g.data[d]) && !OwnSuppressed(g.data[d])
    ensures !SuppressionLaw(g, NO_FILTERS, kpis, u)
  {
    SuppressionLawExact(g, NO_FILTERS, kpis, u);
    TwoLeavesReturned(g, kpis, u, c, d, c);
    TwoLeavesReturned(g, kpis, u, c, d, d);
    TwoLeavesExposed(g, u, c, d, c);
    assert Suppressor(g, NO_FILTERS, u, c) && ReturnedChild(g, NO_FILTERS, kpis, u, d);
    forall k | ReturnedChild(g, NO_FILTERS, kpis, u, k) ensures k == d { TwoLeavesReturned(g, kpis, u, c, d, k); }
    forall e | Suppressor(g, NO_FILTERS, u, e) ensures !UnderReturned(g, NO_FILTERS, kpis, u, e) {}
  }

  lemma GreatestOfTwo(g: Graph, u: Vertex, c: Vertex, d: Vertex)
    requires TwoLeaves(g, u, c, d) && IsElement(g.data[c]) && IsElement(g.data[d])
    requires AtLeast(OwnSeverity(g.data[c]), OwnSeverity(g.data[d]))
    ensures GreatestExposed(g, NO_FILTERS, u, OwnSeverity(g.data[c]))
  {
    var s := OwnSeverity(g.data[c]);
    TwoLeavesExposed(g, u, c, d, c);
    if s.Some? { assert Raiser(g, NO_FILTERS, u, c, s.value); }
    forall e, o | Raiser(g, NO_FILTERS, u, e, o) ensures AtLeast(s, Some(o)) { TwoLeavesExposed(g, u, c, d, e); }
  }

  lemma TwoLeavesNoStray(g: Graph, kpis: seq<string>, u: Vertex, c: Vertex, d: Vertex)
    requires TwoLeaves(g, u, c, d) && IsElement(g.data[c]) && IsElement(g.data[d])
    ensures forall k, o :: !Stray(g, NO_FILTERS, kpis, u, k, o)
    ensures forall e :: UnderReturned(g, NO_FILTERS, kpis, u, e) ==> (e == c || e == d) && IsPassing(kpis, g.data[e])
  {
    forall k | ReturnedChild(g, NO_FILTERS, kpis, u, k)
      ensures k == c || k == d
      ensures forall e :: ClearPath(g, NO_FILTERS, k, e) ==> e == k && IsPassing(kpis, g.data[e])
      ensures forall e :: !Exposed(g, NO_FILTERS, k, e)
    {
      TwoLeavesReturned(g, kpis, u, c, d, k);
    }
  }

  /** and keeps the severity of an element the filter hides, unless it is the -1 that the oracle
      counts a missing one as. */
  lemma KpiFilterBreaksSeverity(g: Graph, kpis: seq<string>, u: Vertex, c: Vertex, d: Vertex)
    requires TwoLeaves(g, u, c, d) && !IsElement(g.data[u])
    requires IsElement(g.data[c]) && !IsPassing(kpis, g.data[c])
    requires IsPassing(kpis, g.data[d]) && !AtLeast(OwnSeverity(g.data[d]), OwnSeverity(g.data[c]))
    ensures SeverityLaw(g, NO_FILTERS, kpis, u) <==> OwnSeverity(g.data[c]) == Some(-1)
  {
    GreatestOfTwo(g, u, c, d);
    SeverityLawExact(g, NO_FILTERS, kpis, u, OwnSeverity(g.data[c]));
    TwoLeavesReturned(g, kpis, u, c, d, d);
    TwoLeavesNoStray(g, kpis, u, c, d);
    assert ReturnedChild(g, NO_FILTERS, kpis, u, d);
  }

  /** A severity stored on a folder is shown although no child shows one. */
  lemma StoredSeverityBreaksSeverity(g: Graph, u: Vertex, c: Vertex, d: Vertex)
    requires TwoLeaves(g, u, c, d) && !IsElement(g.data[u]) && OwnSeverity(g.data[u]).Some?
    requires IsElement(g.data[c]) && OwnSeverity(g.data[c]).None?
    requires IsElement(g.data[d]) && OwnSeverity(g.data[d]).None?
    ensures SeverityLaw(g, NO_FILTERS, [], u) <==> OwnSeverity(g.data[u]) == Some(-1)
  {
    GreatestOfTwo(g, u, c, d);
    SeverityLawExact(g, NO_FILTERS, [], u, None);
    TwoLeavesReturned(g, [], u, c, d, c);
    TwoLeavesNoStray(g, [], u, c, d);
    assert ReturnedChild(g, NO_FILTERS, [], u, c);
  }

  /** A greatest severity below -1 is reported, and the oracle does not count that low. */
  lemma NegativeBreaksSeverity(g: Graph, kpis: seq<string>, u: Vertex, c: Vertex, d: Vertex)
    requires TwoLeaves(g, u, c, d) && !IsElement(g.data[u])
    requires IsElement(g.data[c]) && OwnSeverity(g.data[c]).Some? && OwnSeverity(g.data[c]).value < -1
    requires IsElement(g.data[d]) && AtLeast(OwnSeverity(g.data[c]), OwnSeverity(g.data[d]))
    requires IsPassing(kpis, g.data[c]) || IsPassing(kpis, g.data[d])
    ensures !SeverityLaw(g, NO_FILTERS, kpis, u)
  {
    GreatestOfTwo(g, u, c, d);
    SeverityLawExact(g, NO_FILTERS, kpis, u, OwnSeverity(g.data[c]));
    TwoLeavesReturned(g, kpis, u, c, d, c);
    TwoLeavesReturned(g, kpis, u, c, d, d);
    assert ReturnedChild(g, NO_FILTERS, kpis, u, c) || ReturnedChild(g, NO_FILTERS, kpis, u, d);
  }

  lemma ChainExposed(g: Graph, u: Vertex, c: Vertex, d: Vertex)
    requires Chain(g, u, c, d) && IsElement(g.data[c]) && IsElement(g.data[d])
    ensures forall x :: Exposed(g, NO_FILTERS, u, x) <==> x == c
    ensures forall x :: Exposed(g, NO_FILTERS, c, x) <==> x == d
    ensures forall k :: ReturnedChild(g, NO_FILTERS, [], u, k) <==> k == c
  {
    ChildrenFacts(g, u);
    ChildrenFacts(g, c);
    assert c in Children(g, u) && d in Children(g, c);
    assert Witness(g, NO_FILTERS, [], c, c);
    forall x ensures Exposed(g, NO_FILTERS, u, x) <==> x == c {
      if Exposed(g, NO_FILTERS, u, x) {
        var k := ExposedChild(g, NO_FILTERS, u, x);
        assert k in Children(g, u);
        if x != c { ExposedBelow(g, NO_FILTERS, u, c, x); }
      }
    }
    forall x ensures Exposed(g, NO_FILTERS, c, x) <==> x == d {
      if Exposed(g, NO_FILTERS, c, x) {
        var k := ExposedChild(g, NO_FILTERS, c, x);
        assert k in Children(g, c);
        LeafReaches(g, NO_FILTERS, d, x);
      }
    }
    forall k ensures ReturnedChild(g, NO_FILTERS, [], u, k) <==> k == c {
      assert Edge(u, k) in g.edges <==> k in Children(g, u);
    }
  }

  /** An element with something below it is marked suppressed without passing it on, */
  lemma InnerElementBreaksSuppression(g: Graph, u: Vertex, c: Vertex, d: Vertex)
    requires Chain(g, u, c, d) && !IsElement(g.data[u])
    requires IsElement(g.data[c]) && !OwnSuppressed(g.data[c])
    requires IsElement(g.data[d]) && OwnSuppressed(g.data[d])
    ensures !SuppressionLaw(g, NO_FILTERS, [], u)
  {
    ChainExposed(g, u, c, d);
    SuppressionConsistent(g, NO_FILTERS, [], u);
    assert Suppressor(g, NO_FILTERS, c, d);
    assert Shadow(g, NO_FILTERS, [], u, c);
  }

  /** and likewise for a severity above the -1 of a missing one. */
  lemma InnerElementBreaksSeverity(g: Graph, u: Vertex, c: Vertex, d: Vertex)
    requires Chain(g, u, c, d) && !IsElement(g.data[u]) && OwnSeverity(g.data[u]).None?
    requires IsElement(g.data[c]) && OwnSeverity(g.data[c]).None?
    requires IsElement(g.data[d]) && OwnSeverity(g.data[d]).Some?
    ensures SeverityLaw(g, NO_FILTERS, [], u) <==> OwnSeverity(g.data[d]).value <= -1
  {
    var o := OwnSeverity(g.data[d]).value;
    ChainExposed(g, u, c, d);
    assert GreatestExposed(g, NO_FILTERS, u, None);
    SeverityLawExact(g, NO_FILTERS, [], u, None);
    assert Raiser(g, NO_FILTERS, c, d, o);
    assert GreatestExposed(g, NO_FILTERS, c, Some(o));
    assert Stray(g, NO_FILTERS, [], u, c, o);
    forall k, o' | Stray(g, NO_FILTERS, [], u, k, o') ensures o' == o {
      var e :| Raiser(g, NO_FILTERS, c, e, o');
    }
  }

  /** A listed model below s whose owner or class is refused is returned for an element below
      it, and no longer returned when the level-1 list is dropped. */
  lemma DroppingLevel1Loses(g: Graph, f: Filters, kpis: seq<string>, s: Vertex, u: Vertex, c: Vertex, d: Vertex)
    requires TwoLeaves(g, u, c, d) && s in g.data && Edge(s, u) in g.edges && !Terminates(f, g.data[s])
    requires f.level1 != [] && Monotonicity.Admitted(f, g.data[u]) && !IsPassing(kpis, g.data[u])
    requires IsPassing(kpis, g.data[c])
    ensures VisitedTree(g, f, u) in Returned(g, f, kpis, s)
    ensures VisitedTree(g, f.(level1 := []), u) !in Returned(g, f.(level1 := []), kpis, s)
  {
    ChildrenFacts(g, u);
    assert c in Children(g, u);
    TerminatesExactly(f, g.data[u]);
    assert ClearPath(g, f, u, u);
    assert Witness(g, f, kpis, u, c);
    ValidMeansWitness(g, f, kpis, u);
    ReturnedChildren(g, f, kpis, s, VisitedTree(g, f, u));
    Monotonicity.DroppingLevel1(g, f, kpis, s, u);
    forall e | Monotonicity.UnstoppedPath(g, f, u, e) ensures e == u { StoppedTop(g, f, u, e); }
  }

  lemma {:induction false} StoppedTop(g: Graph, f: Filters, u: Vertex, e: Vertex)
    requires IsForest(g) && u in g.data && ListsStop(f, g.data[u]) && Monotonicity.UnstoppedPath(g, f, u, e)
    ensures e == u
    decreases e
  {
    if e != u { StoppedTop(g, f, u, Parent(g, e).value); }
  }

  // ----- instances --------------------------------------------------------------------------

  /** The request for the children of one vertex, null for the root. */
  function Ask(parent: Value, f: Filters, kpis: seq<string>): Node {
    map["parentId" := parent, "kpifilter" := StrsV(kpis), "l1filter" := StrsV(f.level1),
        "modelownerfilter" := StrsV(f.owners), "modelclassfilter" := StrsV(f.classes)]
  }

  lemma AskReads(parent: Value, f: Filters, kpis: seq<string>)
    ensures GetFilterSettings(Ask(parent, f, kpis)) == f && StringsAt(Ask(parent, f, kpis), "kpifilter") == kpis
    ensures "parentId" in Ask(parent, f, kpis) && Ask(parent, f, kpis)["parentId"] == parent
  {
  }

  /** The hierarchy meets what the query command requires, and the query starts at v. */
  ghost predicate CanAsk(st: State, parent: Value, f: Filters, kpis: seq<string>, v: Vertex) {
    var command := Ask(parent, f, kpis);
    && Valid(st) && ParentKnown(st, command) && st.root.Some?
    && GetFilterSettings(command) == f && StringsAt(command, "kpifilter") == kpis
    && StartOf(st, command) == v && Traversable(st.graph, f, kpis, v)
  }

  /** A node no query throws on, whatever its filters. */
  ghost predicate WellTyped(n: Node) {
    && "levelno" in n && n["levelno"].IntV?
    && ("type" in n ==> n["type"].StrV?)
    && ("modelowner" in n ==> n["modelowner"].StrV? || n["modelowner"].NoneV?)
    && ("modelclass" in n ==> n["modelclass"].StrV? || n["modelclass"].NoneV?)
    && ("is_modelelement" in n ==> n["is_modelelement"].BoolV?)
    && ("issuppressed" in n ==> n["issuppressed"].BoolV?)
    && ("severity" in n ==> n["severity"].IntV?)
    && ("dataaccesslevel" in n ==> n["dataaccesslevel"].StrV?)
  }

  /** A well-typed node to populate with. */
  ghost predicate IsNode(n: Node, id: string, parent: Option<string>) {
    HasId(n) && IdOf(n) == id && id != "root" && StringAt(n, "parent_id") == parent && WellTyped(n)
  }

  /** Populating an empty hierarchy, root included, with three nodes. */
  ghost function Populated(n: Node, n': Node, n'': Node): State
    requires HasId(n) && HasId(n') && HasId(n'')
  {
    InsertAll(AddRoot(CLEARED), [n, n', n''])
  }

  lemma PopulatedSteps(n: Node, n': Node, n'': Node)
    requires HasId(n) && HasId(n') && HasId(n'')
    ensures Populated(n, n', n'') == Insert(Insert(Insert(AddRoot(CLEARED), n), n'), n'')
  {
    var st := AddRoot(CLEARED);
    assert [n, n', n''][..2] == [n, n'] && [n, n'][..1] == [n] && [n][..0] == [];
    assert InsertAll(st, []) == st && InsertAll(st, [n]) == Insert(st, n);
    assert InsertAll(st, [n, n']) == Insert(Insert(st, n), n');
  }

  /** The first node hangs from the root and the others from what they name. */
  ghost predicate Laid(st: State, n: Node, n': Node, n'': Node, es: seq<Edge>)
  {
    && HasId(n) && HasId(n') && HasId(n'')
    && st == State(Graph([0, 1, 2, 3],
                         map[0 := ROOT_VERTEX, 1 := Modelhierarchy(IdOf(n), n), 2 := Modelhierarchy(IdOf(n'), n'),
                             3 := Modelhierarchy(IdOf(n''), n'')],
                         es, 4),
                   map[IdOf(n) := 1, IdOf(n') := 2, IdOf(n'') := 3],
                   Some(0))
  }

  lemma PopulatedWide(n: Node, n': Node, n'': Node, a: string, b: string, c: string)
    requires IsNode(n, a, None) && IsNode(n', b, Some(a)) && IsNode(n'', c, Some(a)) && a != b && a != c && b != c
    ensures Laid(Populated(n, n', n''), n, n', n'', [Edge(0, 1), Edge(1, 2), Edge(1, 3)])
  {
    PopulatedSteps(n, n', n'');
  }

  lemma PopulatedDeep(n: Node, n': Node, n'': Node, a: string, b: string, c: string)
    requires IsNode(n, a, None) && IsNode(n', b, Some(a)) && IsNode(n'', c, Some(b)) && a != b && a != c && b != c
    ensures Laid(Populated(n, n', n''), n, n', n'', [Edge(0, 1), Edge(1, 2), Edge(2, 3)])
  {
    PopulatedSteps(n, n', n'');
  }

  lemma PopulatedValid(n: Node, n': Node, n'': Node, a: string, b: string, c: string,
                       p: Option<string>, q: Option<string>)
    requires IsNode(n, a, None) && IsNode(n', b, p) && IsNode(n'', c, q) && a != b && a != c && b != c
    ensures Valid(Populated(n, n', n''))
  {
    AddRootValid(CLEARED);
    ThreeFresh([n, n', n''], a, b, c);
    InsertAllValid(AddRoot(CLEARED), [n, n', n'']);
  }

  lemma ThreeFresh(nodes: seq<Node>, a: string, b: string, c: string)
    requires |nodes| == 3 && HasId(nodes[0]) && HasId(nodes[1]) && HasId(nodes[2])
    requires IdOf(nodes[0]) == a && IdOf(nodes[1]) == b && IdOf(nodes[2]) == c
    requires a != b && a != c && b != c && a != "root" && b != "root" && c != "root"
    ensures FreshBatch(AddRoot(CLEARED), nodes)
  {
    forall n | n in nodes ensures HasId(n) && IdOf(n) != "root" {}
  }

  lemma AddTarget(es: seq<Edge>, e: Edge, u: Vertex)
    ensures Targets(es + [e], u) == Targets(es, u) + if e.source == u then [e.target] else []
  {
    assert (es + [e])[..|es|] == es;
  }

  lemma ThreeTargets(e: Edge, e': Edge, e'': Edge, u: Vertex)
    ensures Targets([e, e', e''], u) == (if e.source == u then [e.target] else [])
                                        + (if e'.source == u then [e'.target] else [])
                                        + (if e''.source == u then [e''.target] else [])
  {
    AddTarget([], e, u);
    AddTarget([e], e', u);
    AddTarget([e, e'], e'', u);
    assert [] + [e] == [e] && [e] + [e'] == [e, e'] && [e, e'] + [e''] == [e, e', e''];
  }

  lemma WellTypedReads(f: Filters, d: Modelhierarchy)
    requires WellTyped(d.properties)
    ensures CanDiscover(d) && CanJudge(f, d) && CanFinishEdge(d)
  {
  }

  lemma WellTypedReadable(g: Graph, f: Filters, s: Vertex)
    requires IsForest(g) && s in g.data && forall x :: x in g.data ==> WellTyped(g.data[x].properties)
    ensures Readable(g, f, s)
  {
    forall v | v in g.data ensures CanDiscover(g.data[v]) && CanJudge(f, g.data[v]) && CanFinishEdge(g.data[v]) {
      WellTypedReads(f, g.data[v]);
    }
  }

  lemma CanAskFrom(st: State, parent: Value, f: Filters, kpis: seq<string>, v: Vertex)
    requires Valid(st) && st.root.Some? && v in st.graph.data && !IsPassing(kpis, st.graph.data[v])
    requires forall x :: x in st.graph.data ==> WellTyped(st.graph.data[x].properties)
    requires (parent.NoneV? && st.root.value == v) || (parent.StrV? && parent.s in st.index && st.index[parent.s] == v)
    ensures CanAsk(st, parent, f, kpis, v)
  {
    AskReads(parent, f, kpis);
    WellTypedReadable(st.graph, f, v);
  }

  lemma LaidTyped(st: State, n: Node, n': Node, n'': Node, es: seq<Edge>)
    requires Laid(st, n, n', n'', es) && WellTyped(n) && WellTyped(n') && WellTyped(n'')
    requires IdOf(n) != IdOf(n') && IdOf(n) != IdOf(n'')
    ensures forall x :: x in st.graph.data ==> WellTyped(st.graph.data[x].properties)
    ensures st.root == Some(0) && IdOf(n) in st.index && st.index[IdOf(n)] == 1
    ensures !IsElement(st.graph.data[0])
  {
  }

  /** Both the root and a first node that is no element can be queried. */
  lemma LaidCanAsk(st: State, n: Node, n': Node, n'': Node, es: seq<Edge>, f: Filters, kpis: seq<string>)
    requires Valid(st) && Laid(st, n, n', n'', es) && !IsElement(Modelhierarchy(IdOf(n), n))
    requires WellTyped(n) && WellTyped(n') && WellTyped(n'') && IdOf(n) != IdOf(n') && IdOf(n) != IdOf(n'')
    ensures CanAsk(st, NoneV, f, kpis, 0) && CanAsk(st, StrV(IdOf(n)), f, kpis, 1)
  {
    LaidTyped(st, n, n', n'', es);
    CanAskFrom(st, NoneV, f, kpis, 0);
    CanAskFrom(st, StrV(IdOf(n)), f, kpis, 1);
  }

  lemma WideLeaves(st: State, n: Node, n': Node, n'': Node)
    requires Valid(st) && Laid(st, n, n', n'', [Edge(0, 1), Edge(1, 2), Edge(1, 3)])
    ensures TwoLeaves(st.graph, 1, 2, 3) && Edge(0, 1) in st.graph.edges
  {
    ThreeTargets(Edge(0, 1), Edge(1, 2), Edge(1, 3), 1);
    ThreeTargets(Edge(0, 1), Edge(1, 2), Edge(1, 3), 2);
    ThreeTargets(Edge(0, 1), Edge(1, 2), Edge(1, 3), 3);
  }

  lemma DeepChain(st: State, n: Node, n': Node, n'': Node)
    requires Valid(st) && Laid(st, n, n', n'', [Edge(0, 1), Edge(1, 2), Edge(2, 3)])
    ensures Chain(st.graph, 1, 2, 3) && Edge(0, 1) in st.graph.edges
  {
    ThreeTargets(Edge(0, 1), Edge(1, 2), Edge(2, 3), 1);
    ThreeTargets(Edge(0, 1), Edge(1, 2), Edge(2, 3), 2);
    ThreeTargets(Edge(0, 1), Edge(1, 2), Edge(2, 3), 3);
  }

  /** The folder with a passing element right below it is returned by the query on the root. */
  lemma FolderReturned(g: Graph, kpis: seq<string>, x: Vertex)
    requires IsForest(g) && {0, 1, x} <= g.data.Keys && Edge(0, 1) in g.edges && Edge(1, x) in g.edges
    requires IsPassing(kpis, g.data[x])
    ensures ReturnedChild(g, NO_FILTERS, kpis, 0, 1)
  {
    SourceUnique(g.edges, 1, x);
    assert ClearPath(g, NO_FILTERS, 1, 1);
    assert Witness(g, NO_FILTERS, kpis, 1, x);
  }

  const FOLDER: Node := map["id" := StrV("f"), "parent_id" := NoneV, "levelno" := IntV(1)]
  const RATED: Node := map["id" := StrV("f"), "parent_id" := NoneV, "levelno" := IntV(1), "severity" := IntV(5)]
  const QUIET: Node := map["id" := StrV("q"), "parent_id" := StrV("f"), "levelno" := IntV(2),
                           "is_modelelement" := BoolV(true)]
  const STILL: Node := map["id" := StrV("s"), "parent_id" := StrV("f"), "levelno" := IntV(2),
                           "is_modelelement" := BoolV(true)]
  const LOUD: Node := map["id" := StrV("l"), "parent_id" := StrV("f"), "levelno" := IntV(2),
                          "is_modelelement" := BoolV(true), "issuppressed" := BoolV(true), "severity" := IntV(2),
                          "kpigroup_id" := StrV("a")]
  const COLD: Node := map["id" := StrV("c"), "parent_id" := StrV("f"), "levelno" := IntV(2),
                          "is_modelelement" := BoolV(true), "severity" := IntV(-3)]
  const INNER: Node := map["id" := StrV("i"), "parent_id" := StrV("q"), "levelno" := IntV(3),
                           "is_modelelement" := BoolV(true), "issuppressed" := BoolV(true), "severity" := IntV(2)]
  const MODEL: Node := map["id" := StrV("f"), "parent_id" := NoneV, "levelno" := IntV(1), "type" := StrV("model"),
                           "modelowner" := NoneV]

  lemma FolderTraits()
    ensures IsNode(FOLDER, "f", None) && IsNode(RATED, "f", None) && IsNode(MODEL, "f", None)
    ensures forall n :: n == FOLDER || n == RATED || n == MODEL ==> !IsElement(Modelhierarchy("f", n))
    ensures OwnSeverity(Modelhierarchy("f", FOLDER)).None? && OwnSeverity(Modelhierarchy("f", RATED)) == Some(5)
    ensures Monotonicity.Admitted(Filters(["f"], ["o"], []), Modelhierarchy("f", MODEL))
    ensures forall f: Filters :: f.level1 == [] || f.level1 == ["f"] ==> !Terminates(f, ROOT_VERTEX)
  {
  }

  lemma QuietTraits(kpis: seq<string>)
    ensures IsNode(QUIET, "q", Some("f")) && IsPassing(kpis, Modelhierarchy("q", QUIET))
    ensures !OwnSuppressed(Modelhierarchy("q", QUIET)) && OwnSeverity(Modelhierarchy("q", QUIET)).None?
  {
  }

  lemma StillTraits()
    ensures IsNode(STILL, "s", Some("f")) && IsPassing([], Modelhierarchy("s", STILL))
    ensures OwnSeverity(Modelhierarchy("s", STILL)).None?
  {
  }

  lemma LoudTraits()
    ensures IsNode(LOUD, "l", Some("f"))
    ensures var d := Modelhierarchy("l", LOUD);
            IsElement(d) && OwnSuppressed(d) && OwnSeverity(d) == Some(2) && !IsPassing(["b"], d)
  {
  }

  lemma ColdTraits()
    ensures IsNode(COLD, "c", Some("f")) && IsPassing([], Modelhierarchy("c", COLD))
    ensures OwnSeverity(Modelhierarchy("c", COLD)) == Some(-3)
  {
  }

  lemma InnerTraits()
    ensures IsNode(INNER, "i", Some("q"))
    ensures var d := Modelhierarchy("i", INNER); IsElement(d) && OwnSuppressed(d) && OwnSeverity(d) == Some(2)
  {
  }

  /** The same query on the root and on its child "f". */
  ghost predicate CanDrillDown(st: State, f: Filters, kpis: seq<string>) {
    CanAsk(st, NoneV, f, kpis, 0) && CanAsk(st, StrV("f"), f, kpis, 1)
  }

  /** A folder over two nodes, as populated. */
  ghost predicate WideBuilt(st: State, n: Node, n': Node, n'': Node) {
    && Valid(st) && TwoLeaves(st.graph, 1, 2, 3) && Edge(0, 1) in st.graph.edges
    && Laid(st, n, n', n'', [Edge(0, 1), Edge(1, 2), Edge(1, 3)])
  }

  lemma BuildWide(n: Node, n': Node, n'': Node, b: string, c: string)
    requires IsNode(n, "f", None) && IsNode(n', b, Some("f")) && IsNode(n'', c, Some("f"))
    requires "f" != b && "f" != c && b != c
    ensures WideBuilt(Populated(n, n', n''), n, n', n'')
  {
    PopulatedValid(n, n', n'', "f", b, c, Some("f"), Some("f"));
    PopulatedWide(n, n', n'', "f", b, c);
    WideLeaves(Populated(n, n', n''), n, n', n'');
  }

  /** A folder over a node over a node, as populated. */
  ghost predicate DeepBuilt(st: State, n: Node, n': Node, n'': Node) {
    && Valid(st) && Chain(st.graph, 1, 2, 3) && Edge(0, 1) in st.graph.edges
    && Laid(st, n, n', n'', [Edge(0, 1), Edge(1, 2), Edge(2, 3)])
  }

  lemma BuildDeep(n: Node, n': Node, n'': Node, b: string, c: string)
    requires IsNode(n, "f", None) && IsNode(n', b, Some("f")) && IsNode(n'', c, Some(b))
    requires "f" != b && "f" != c && b != c
    ensures DeepBuilt(Populated(n, n', n''), n, n', n'')
  {
    PopulatedValid(n, n', n'', "f", b, c, Some("f"), Some(b));
    PopulatedDeep(n, n', n'', "f", b, c);
    DeepChain(Populated(n, n', n''), n, n', n'');
  }

  lemma BuiltCanDrillDown(st: State, n: Node, n': Node, n'': Node, b: string, c: string, p: Option<string>,
        q: Option<string>, f: Filters, kpis: seq<string>)
    requires IsNode(n, "f", None) && IsNode(n', b, p) && IsNode(n'', c, q) && "f" != b && "f" != c
    requires Valid(st) && Laid(st, n, n', n'', st.graph.edges) && !IsElement(Modelhierarchy("f", n))
    ensures CanDrillDown(st, f, kpis)
  {
    LaidCanAsk(st, n, n', n'', st.graph.edges, f, kpis);
  }

  lemma WideFails(st: State, n: Node, n': Node, n'': Node, kpis: seq<string>)
    requires WideBuilt(st, n, n', n'') && !IsElement(Modelhierarchy(IdOf(n), n))
    requires var d := Modelhierarchy(IdOf(n'), n');
             IsElement(d) && OwnSuppressed(d) && OwnSeverity(d) == Some(2) && !IsPassing(kpis, d)
    requires var d := Modelhierarchy(IdOf(n''), n'');
             IsPassing(kpis, d) && !OwnSuppressed(d) && OwnSeverity(d).None?
    ensures ReturnedChild(st.graph, NO_FILTERS, kpis, 0, 1)
    ensures !SuppressionLaw(st.graph, NO_FILTERS, kpis, 1) && !SeverityLaw(st.graph, NO_FILTERS, kpis, 1)
  {
    ChildrenFacts(st.graph, 1);
    assert 3 in Children(st.graph, 1);
    FolderReturned(st.graph, kpis, 3);
    KpiFilterBreaksSuppression(st.graph, kpis, 1, 2, 3);
    KpiFilterBreaksSeverity(st.graph, kpis, 1, 2, 3);
  }

  /** Both laws fail on a returned folder of a populated hierarchy under a KPI filter, */
  lemma WideLimit()
    ensures HasId(FOLDER) && HasId(LOUD) && HasId(QUIET)
    ensures var st, kpis := Populated(FOLDER, LOUD, QUIET), ["b"];
            && CanDrillDown(st, NO_FILTERS, kpis)
            && 0 in st.graph.data && 1 in st.graph.data && ReturnedChild(st.graph, NO_FILTERS, kpis, 0, 1)
            && !SuppressionLaw(st.graph, NO_FILTERS, kpis, 1) && !SeverityLaw(st.graph, NO_FILTERS, kpis, 1)
  {
    FolderTraits();
    LoudTraits();
    QuietTraits(["b"]);
    BuildWide(FOLDER, LOUD, QUIET, "l", "q");
    BuiltCanDrillDown(Populated(FOLDER, LOUD, QUIET), FOLDER, LOUD, QUIET, "l", "q", Some("f"), Some("f"),
                      NO_FILTERS, ["b"]);
    WideFails(Populated(FOLDER, LOUD, QUIET), FOLDER, LOUD, QUIET, ["b"]);
  }

  lemma RatedFails(st: State, n: Node, n': Node, n'': Node)
    requires WideBuilt(st, n, n', n'')
    requires var d := Modelhierarchy(IdOf(n), n); !IsElement(d) && OwnSeverity(d) == Some(5)
    requires var d := Modelhierarchy(IdOf(n'), n'); IsPassing([], d) && OwnSeverity(d).None?
    requires var d := Modelhierarchy(IdOf(n''), n''); IsPassing([], d) && OwnSeverity(d).None?
    ensures ReturnedChild(st.graph, NO_FILTERS, [], 0, 1) && !SeverityLaw(st.graph, NO_FILTERS, [], 1)
  {
    ChildrenFacts(st.graph, 1);
    assert 3 in Children(st.graph, 1);
    FolderReturned(st.graph, [], 3);
    StoredSeverityBreaksSeverity(st.graph, 1, 2, 3);
  }

  /** the severity law without one when a folder stores a severity, */
  lemma SeverityLimit()
    ensures HasId(RATED) && HasId(STILL) && HasId(QUIET)
    ensures var st := Populated(RATED, STILL, QUIET);
            && CanDrillDown(st, NO_FILTERS, [])
            && 0 in st.graph.data && 1 in st.graph.data && ReturnedChild(st.graph, NO_FILTERS, [], 0, 1)
            && !SeverityLaw(st.graph, NO_FILTERS, [], 1)
  {
    FolderTraits();
    StillTraits();
    QuietTraits([]);
    BuildWide(RATED, STILL, QUIET, "s", "q");
    BuiltCanDrillDown(Populated(RATED, STILL, QUIET), RATED, STILL, QUIET, "s", "q", Some("f"), Some("f"),
                      NO_FILTERS, []);
    RatedFails(Populated(RATED, STILL, QUIET), RATED, STILL, QUIET);
  }

  lemma ColdFails(st: State, n: Node, n': Node, n'': Node)
    requires WideBuilt(st, n, n', n'') && !IsElement(Modelhierarchy(IdOf(n), n))
    requires var d := Modelhierarchy(IdOf(n'), n'); IsPassing([], d) && OwnSeverity(d) == Some(-3)
    requires var d := Modelhierarchy(IdOf(n''), n''); IsPassing([], d) && OwnSeverity(d).None?
    ensures ReturnedChild(st.graph, NO_FILTERS, [], 0, 1) && !SeverityLaw(st.graph, NO_FILTERS, [], 1)
  {
    ChildrenFacts(st.graph, 1);
    assert 3 in Children(st.graph, 1);
    FolderReturned(st.graph, [], 3);
    NegativeBreaksSeverity(st.graph, [], 1, 2, 3);
  }

  /** or when the greatest severity is negative, */
  lemma NegativeLimit()
    ensures HasId(FOLDER) && HasId(COLD) && HasId(QUIET)
    ensures var st := Populated(FOLDER, COLD, QUIET);
            && CanDrillDown(st, NO_FILTERS, [])
            && 0 in st.graph.data && 1 in st.graph.data && ReturnedChild(st.graph, NO_FILTERS, [], 0, 1)
            && !SeverityLaw(st.graph, NO_FILTERS, [], 1)
  {
    FolderTraits();
    ColdTraits();
    QuietTraits([]);
    BuildWide(FOLDER, COLD, QUIET, "c", "q");
    BuiltCanDrillDown(Populated(FOLDER, COLD, QUIET), FOLDER, COLD, QUIET, "c", "q", Some("f"), Some("f"),
                      NO_FILTERS, []);
    ColdFails(Populated(FOLDER, COLD, QUIET), FOLDER, COLD, QUIET);
  }

  lemma DeepFails(st: State, n: Node, n': Node, n'': Node)
    requires DeepBuilt(st, n, n', n'')
    requires var d := Modelhierarchy(IdOf(n), n); !IsElement(d) && OwnSeverity(d).None?
    requires var d := Modelhierarchy(IdOf(n'), n'); IsPassing([], d) && !OwnSuppressed(d) && OwnSeverity(d).None?
    requires var d := Modelhierarchy(IdOf(n''), n''); IsElement(d) && OwnSuppressed(d) && OwnSeverity(d) == Some(2)
    ensures ReturnedChild(st.graph, NO_FILTERS, [], 0, 1)
    ensures !SuppressionLaw(st.graph, NO_FILTERS, [], 1) && !SeverityLaw(st.graph, NO_FILTERS, [], 1)
  {
    ChildrenFacts(st.graph, 1);
    assert 2 in Children(st.graph, 1);
    FolderReturned(st.graph, [], 2);
    InnerElementBreaksSuppression(st.graph, 1, 2, 3);
    InnerElementBreaksSeverity(st.graph, 1, 2, 3);
  }

  /** and both laws without one when an element has something below it. */
  lemma DeepLimit()
    ensures HasId(FOLDER) && HasId(QUIET) && HasId(INNER)
    ensures var st := Populated(FOLDER, QUIET, INNER);
            && CanDrillDown(st, NO_FILTERS, [])
            && 0 in st.graph.data && 1 in st.graph.data && ReturnedChild(st.graph, NO_FILTERS, [], 0, 1)
            && !SuppressionLaw(st.graph, NO_FILTERS, [], 1) && !SeverityLaw(st.graph, NO_FILTERS, [], 1)
  {
    FolderTraits();
    QuietTraits([]);
    InnerTraits();
    BuildDeep(FOLDER, QUIET, INNER, "q", "i");
    BuiltCanDrillDown(Populated(FOLDER, QUIET, INNER), FOLDER, QUIET, INNER, "q", "i", Some("f"), Some("q"),
                      NO_FILTERS, []);
    DeepFails(Populated(FOLDER, QUIET, INNER), FOLDER, QUIET, INNER);
  }

  lemma Level1Loses(st: State, n: Node, n': Node, n'': Node, f: Filters)
    requires WideBuilt(st, n, n', n'') && f.level1 != [] && !Terminates(f, ROOT_VERTEX)
    requires var d := Modelhierarchy(IdOf(n), n); !IsElement(d) && Monotonicity.Admitted(f, d)
    requires IsPassing([], Modelhierarchy(IdOf(n'), n'))
    ensures VisitedTree(st.graph, f, 1) in Returned(st.graph, f, [], 0)
    ensures VisitedTree(st.graph, f.(level1 := []), 1) !in Returned(st.graph, f.(level1 := []), [], 0)
  {
    DroppingLevel1Loses(st.graph, f, [], 0, 1, 2, 3);
  }

  /** A listed level-1 model with a refused owner is returned by the query on the root, and by
      the query without the level-1 list it is not. */
  lemma Level1Limit()
    ensures HasId(MODEL) && HasId(STILL) && HasId(QUIET)
    ensures var st, f, f' := Populated(MODEL, STILL, QUIET), Filters(["f"], ["o"], []), Filters([], ["o"], []);
            && CanAsk(st, NoneV, f, [], 0) && CanAsk(st, NoneV, f', [], 0)
            && 0 in st.graph.data && 1 in st.graph.data
            && VisitedTree(st.graph, f, 1) in Returned(st.graph, f, [], 0)
            && VisitedTree(st.graph, f', 1) !in Returned(st.graph, f', [], 0)
  {
    var st, f, f' := Populated(MODEL, STILL, QUIET), Filters(["f"], ["o"], []), Filters([], ["o"], []);
    FolderTraits();
    StillTraits();
    QuietTraits([]);
    BuildWide(MODEL, STILL, QUIET, "s", "q");
    BuiltCanDrillDown(st, MODEL, STILL, QUIET, "s", "q", Some("f"), Some("f"), f, []);
    BuiltCanDrillDown(st, MODEL, STILL, QUIET, "s", "q", Some("f"), Some("f"), f', []);
    Level1Loses(st, MODEL, STILL, QUIET, Filters(["f"], ["o"], []));
  }
}
