/** The `nodes` query against a naive reading of the graph: for each child, look at every
    element, climb from it, and test what is met on the way. */
module NaiveNodes {
  import opened Values
  import opened Graphs
  import opened Trees
  import opened Filters
  import opened Visitor
  import opened Aggregates
  import opened Traversal
  import opened OnePass
  import opened NodesQuery

  /** e is a passing element at or below c, visited when the traversal starts at c. */
  ghost predicate Witness(g: Graph, f: Filters, kpis: seq<string>, c: Vertex, e: Vertex)
    requires IsForest(g)
  {
    e in g.data && IsPassing(kpis, g.data[e]) && ClearPath(g, f, c, e)
  }

  /** Climbing from x reaches c, no vertex met is terminated, and none before c is an element:
      what x contributes is not hidden by another element on its way up. */
  ghost predicate Exposed(g: Graph, f: Filters, c: Vertex, x: Vertex)
    requires IsForest(g)
    decreases x
  {
    && x in g.data
    && var p := Parent(g, x);
       && p.Some? && p.value in g.data && !Terminates(f, g.data[p.value])
       && (p.value == c || (!IsElement(g.data[p.value]) && Exposed(g, f, c, p.value)))
  }

  /** A suppressed element that is exposed to c. */
  ghost predicate Suppressor(g: Graph, f: Filters, c: Vertex, e: Vertex)
    requires IsForest(g)
  {
    Exposed(g, f, c, e) && IsElement(g.data[e]) && OwnSuppressed(g.data[e])
  }

  /** An element with severity o that is exposed to c. */
  ghost predicate Raiser(g: Graph, f: Filters, c: Vertex, e: Vertex, o: int)
    requires IsForest(g)
  {
    Exposed(g, f, c, e) && IsElement(g.data[e]) && OwnSeverity(g.data[e]) == Some(o)
  }

  ghost predicate AtLeast(s: Option<int>, r: Option<int>) {
    r.Some? ==> s.Some? && s.value >= r.value
  }

  /** s is the greatest severity of an element exposed to c, None if none has one. */
  ghost predicate GreatestExposed(g: Graph, f: Filters, c: Vertex, s: Option<int>)
    requires IsForest(g)
  {
    && (s.Some? ==> exists e :: Raiser(g, f, c, e, s.value))
    && (forall e, o :: Raiser(g, f, c, e, o) ==> AtLeast(s, Some(o)))
  }

  // ----- which children are returned --------------------------------------------------------

  lemma {:induction false} PassingFound(g: Graph, f: Filters, kpis: seq<string>, v: Vertex) returns (e: Vertex)
    requires IsForest(g) && v in g.data && HasPassing(kpis, VisitedTree(g, f, v))
    ensures Witness(g, f, kpis, v, e)
    decreases g.next - v, |Children(g, v)| + 1
  {
    ChildrenFacts(g, v);
    if IsPassing(kpis, g.data[v]) {
      e := v;
    } else {
      var c;
      c, e := PassingFoundBelow(g, f, kpis, v, Children(g, v));
      ClearPathTransitive(g, f, v, c, e);
    }
  }

  lemma {:induction false} PassingFoundBelow(g: Graph, f: Filters, kpis: seq<string>, u: Vertex, cs: seq<Vertex>)
    returns (c: Vertex, e: Vertex)
    requires IsForest(g) && AreChildren(g, u, cs)
    requires ForestHasPassing(kpis, PrunedForest(f, ForestOf(g, u, cs)))
    ensures c in cs && Witness(g, f, kpis, c, e)
    decreases g.next - u, |cs|
  {
    assert cs[0] in cs && Edge(u, cs[0]) in g.edges;
    if HasPassing(kpis, VisitedTree(g, f, cs[0])) {
      c := cs[0];
      e := PassingFound(g, f, kpis, c);
    } else {
      c, e := PassingFoundBelow(g, f, kpis, u, cs[1..]);
    }
  }

  lemma {:induction false} ForestPassingHolds(g: Graph, f: Filters, kpis: seq<string>, u: Vertex,
        cs: seq<Vertex>, c: Vertex)
    requires IsForest(g) && AreChildren(g, u, cs) && c in cs && c in g.data
    requires HasPassing(kpis, VisitedTree(g, f, c))
    ensures ForestHasPassing(kpis, PrunedForest(f, ForestOf(g, u, cs)))
  {
    if cs[0] != c { ForestPassingHolds(g, f, kpis, u, cs[1..], c); }
  }

  lemma {:induction false} PassingCounts(g: Graph, f: Filters, kpis: seq<string>, v: Vertex, x: Vertex)
    requires IsForest(g) && v in g.data && ClearPath(g, f, v, x) && HasPassing(kpis, VisitedTree(g, f, x))
    ensures HasPassing(kpis, VisitedTree(g, f, v))
    decreases x
  {
    if x != v {
      var p := Parent(g, x).value;
      ChildrenFacts(g, p);
      ForestPassingHolds(g, f, kpis, p, Children(g, p), x);
      PassingCounts(g, f, kpis, v, p);
    }
  }

  /** A subtree counts as valid if and only if some passing element is reached from its top. */
  lemma ValidMeansWitness(g: Graph, f: Filters, kpis: seq<string>, c: Vertex)
    requires IsForest(g) && c in g.data
    ensures HasPassing(kpis, VisitedTree(g, f, c)) <==> exists e :: Witness(g, f, kpis, c, e)
  {
    if HasPassing(kpis, VisitedTree(g, f, c)) {
      var e := PassingFound(g, f, kpis, c);
    }
    if e :| Witness(g, f, kpis, c, e) {
      PassingCounts(g, f, kpis, c, e);
    }
  }

  // ----- model ids --------------------------------------------------------------------------

  ghost predicate ModelOf(g: Graph, f: Filters, kpis: seq<string>, c: Vertex, m: Vertex)
    requires IsForest(g)
  {
    exists e :: Witness(g, f, kpis, c, e) && Parent(g, e) == Some(m)
  }

  lemma {:induction false} ModelFound(g: Graph, f: Filters, kpis: seq<string>, s: Vertex, c: Vertex, m: Vertex)
    returns (e: Vertex)
    requires IsForest(g) && c in g.data && Parent(g, c) == Some(s)
    requires m in ModelsIn(kpis, s, VisitedTree(g, f, c))
    ensures Witness(g, f, kpis, c, e) && Parent(g, e) == Some(m)
    decreases g.next - c, |Children(g, c)| + 1
  {
    ChildrenFacts(g, c);
    if IsPassing(kpis, g.data[c]) && m == s {
      e := c;
    } else {
      var k;
      k, e := ModelFoundBelow(g, f, kpis, c, Children(g, c), m);
      ClearPathTransitive(g, f, c, k, e);
    }
  }

  lemma {:induction false} ModelFoundBelow(g: Graph, f: Filters, kpis: seq<string>, u: Vertex, cs: seq<Vertex>,
        m: Vertex)
    returns (k: Vertex, e: Vertex)
    requires IsForest(g) && AreChildren(g, u, cs)
    requires m in ForestModelsIn(kpis, u, PrunedForest(f, ForestOf(g, u, cs)))
    ensures k in cs && Witness(g, f, kpis, k, e) && Parent(g, e) == Some(m)
    decreases g.next - u, |cs|
  {
    assert cs[0] in cs && Edge(u, cs[0]) in g.edges;
    if m in ModelsIn(kpis, u, VisitedTree(g, f, cs[0])) {
      k := cs[0];
      SourceUnique(g.edges, u, k);
      e := ModelFound(g, f, kpis, u, k, m);
    } else {
      k, e := ModelFoundBelow(g, f, kpis, u, cs[1..], m);
    }
  }

  lemma {:induction false} ForestModelHolds(g: Graph, f: Filters, kpis: seq<string>, u: Vertex,
        cs: seq<Vertex>, c: Vertex, m: Vertex)
    requires IsForest(g) && AreChildren(g, u, cs) && c in cs && c in g.data
    requires m in ModelsIn(kpis, u, VisitedTree(g, f, c))
    ensures m in ForestModelsIn(kpis, u, PrunedForest(f, ForestOf(g, u, cs)))
  {
    if cs[0] != c { ForestModelHolds(g, f, kpis, u, cs[1..], c, m); }
  }

  lemma {:induction false} ModelCounts(g: Graph, f: Filters, kpis: seq<string>, s: Vertex, c: Vertex,
        x: Vertex, m: Vertex)
    requires IsForest(g) && c in g.data && Parent(g, c) == Some(s) && ClearPath(g, f, c, x)
    requires Parent(g, x).Some? && m in ModelsIn(kpis, Parent(g, x).value, VisitedTree(g, f, x))
    ensures m in ModelsIn(kpis, s, VisitedTree(g, f, c))
    decreases x
  {
    if x != c {
      var p := Parent(g, x).value;
      ChildrenFacts(g, p);
      ForestModelHolds(g, f, kpis, p, Children(g, p), x, m);
      ModelCounts(g, f, kpis, s, c, p, m);
    }
  }

  /** The models filed under a child are the parents of the passing elements reached from it. */
  lemma ModelsMeanParents(g: Graph, f: Filters, kpis: seq<string>, s: Vertex, c: Vertex, m: Vertex)
    requires IsForest(g) && c in g.data && Parent(g, c) == Some(s)
    ensures m in ModelsIn(kpis, s, VisitedTree(g, f, c)) <==> ModelOf(g, f, kpis, c, m)
  {
    if m in ModelsIn(kpis, s, VisitedTree(g, f, c)) {
      var e := ModelFound(g, f, kpis, s, c, m);
    }
    if ModelOf(g, f, kpis, c, m) {
      var e :| Witness(g, f, kpis, c, e) && Parent(g, e) == Some(m);
      ModelCounts(g, f, kpis, s, c, e, m);
    }
  }

  // ----- suppression and severity -----------------------------------------------------------

  lemma {:induction false} ExposedThrough(g: Graph, f: Filters, u: Vertex, c: Vertex, x: Vertex)
    requires IsForest(g) && Exposed(g, f, u, c) && !IsElement(g.data[c]) && Exposed(g, f, c, x)
    ensures Exposed(g, f, u, x)
    decreases x
  {
    if Parent(g, x).value != c { ExposedThrough(g, f, u, c, Parent(g, x).value); }
  }

  lemma {:induction false} ExposedClear(g: Graph, f: Filters, c: Vertex, x: Vertex)
    requires IsForest(g) && Exposed(g, f, c, x)
    ensures ClearPath(g, f, c, x)
    decreases x
  {
    if Parent(g, x).value != c { ExposedClear(g, f, c, Parent(g, x).value); }
  }

  /** What is exposed to c and reached from its child d is exposed to d. */
  lemma {:induction false} ExposedBelow(g: Graph, f: Filters, c: Vertex, d: Vertex, x: Vertex)
    requires IsForest(g) && Exposed(g, f, c, x) && ClearPath(g, f, d, x) && Parent(g, d) == Some(c) && x != d
    ensures Exposed(g, f, d, x) && !IsElement(g.data[d])
    decreases x
  {
    var p := Parent(g, x).value;
    assert Edge(c, d) in g.edges;
    ClearPathBounds(g, f, d, p);
    if p != d { ExposedBelow(g, f, c, d, p); }
  }

  /** What is exposed to c is reached from one of its children. */
  lemma {:induction false} ExposedChild(g: Graph, f: Filters, c: Vertex, x: Vertex) returns (d: Vertex)
    requires IsForest(g) && Exposed(g, f, c, x)
    ensures c in g.data && !Terminates(f, g.data[c]) && Edge(c, d) in g.edges && ClearPath(g, f, d, x)
    decreases x
  {
    var p := Parent(g, x).value;
    if p == c { d := x; } else { d := ExposedChild(g, f, c, p); }
  }

  lemma {:induction false} SuppressorFound(g: Graph, f: Filters, u: Vertex, cs: seq<Vertex>) returns (e: Vertex)
    requires IsForest(g) && u in g.data && AreChildren(g, u, cs) && !Terminates(f, g.data[u])
    requires ForestSuppresses(PrunedForest(f, ForestOf(g, u, cs)))
    ensures Suppressor(g, f, u, e)
    decreases g.next - u, |cs|
  {
    assert cs[0] in cs && Edge(u, cs[0]) in g.edges;
    var c := cs[0];
    SourceUnique(g.edges, u, c);
    if Suppresses(VisitedTree(g, f, c)) {
      if IsElement(g.data[c]) {
        e := c;
      } else {
        ChildrenFacts(g, c);
        assert ForestSuppresses(VisitedTree(g, f, c).kids) && !ForestSuppresses(Nil);
        e := SuppressorFound(g, f, c, Children(g, c));
        ExposedThrough(g, f, u, c, e);
      }
    } else {
      e := SuppressorFound(g, f, u, cs[1..]);
    }
  }

  lemma {:induction false} ForestSuppressorHolds(g: Graph, f: Filters, u: Vertex, cs: seq<Vertex>, c: Vertex)
    requires IsForest(g) && AreChildren(g, u, cs) && c in cs && c in g.data
    requires Suppresses(VisitedTree(g, f, c))
    ensures ForestSuppresses(PrunedForest(f, ForestOf(g, u, cs)))
  {
    if cs[0] != c { ForestSuppressorHolds(g, f, u, cs[1..], c); }
  }

  lemma {:induction false} SuppressorCounts(g: Graph, f: Filters, c: Vertex, x: Vertex)
    requires IsForest(g) && c in g.data && Exposed(g, f, c, x) && Suppresses(VisitedTree(g, f, x))
    ensures ForestSuppresses(VisitedTree(g, f, c).kids)
    decreases x
  {
    var p := Parent(g, x).value;
    ChildrenFacts(g, p);
    ForestSuppressorHolds(g, f, p, Children(g, p), x);
    if p != c { SuppressorCounts(g, f, c, p); }
  }

  /** What lies below c suppresses it if and only if a suppressed element is exposed to it. */
  lemma SuppressionMeansExposed(g: Graph, f: Filters, c: Vertex)
    requires IsForest(g) && c in g.data
    ensures ForestSuppresses(VisitedTree(g, f, c).kids)
       <==> exists e :: Suppressor(g, f, c, e)
  {
    if ForestSuppresses(VisitedTree(g, f, c).kids) {
      ChildrenFacts(g, c);
      var e := SuppressorFound(g, f, c, Children(g, c));
    }
    if e :| Suppressor(g, f, c, e) {
      SuppressorCounts(g, f, c, e);
    }
  }

  lemma {:induction false} RaiserFound(g: Graph, f: Filters, u: Vertex, cs: seq<Vertex>) returns (e: Vertex)
    requires IsForest(g) && u in g.data && AreChildren(g, u, cs) && !Terminates(f, g.data[u])
    requires ForestRaises(PrunedForest(f, ForestOf(g, u, cs))).Some?
    ensures Exposed(g, f, u, e) && IsElement(g.data[e])
    ensures OwnSeverity(g.data[e]) == ForestRaises(PrunedForest(f, ForestOf(g, u, cs)))
    decreases g.next - u, |cs|
  {
    assert cs[0] in cs && Edge(u, cs[0]) in g.edges;
    var c := cs[0];
    SourceUnique(g.edges, u, c);
    var all := ForestRaises(PrunedForest(f, ForestOf(g, u, cs)));
    if Raises(VisitedTree(g, f, c)) == all {
      if IsElement(g.data[c]) {
        e := c;
      } else {
        ChildrenFacts(g, c);
        assert ForestRaises(VisitedTree(g, f, c).kids) == all && ForestRaises(Nil).None?;
        e := RaiserFound(g, f, c, Children(g, c));
        ExposedThrough(g, f, u, c, e);
      }
    } else {
      e := RaiserFound(g, f, u, cs[1..]);
    }
  }

  lemma {:induction false} ForestRaiserHolds(g: Graph, f: Filters, u: Vertex, cs: seq<Vertex>, c: Vertex)
    requires IsForest(g) && AreChildren(g, u, cs) && c in cs && c in g.data
    ensures AtLeast(ForestRaises(PrunedForest(f, ForestOf(g, u, cs))), Raises(VisitedTree(g, f, c)))
  {
    if cs[0] != c { ForestRaiserHolds(g, f, u, cs[1..], c); }
  }

  lemma {:induction false} RaiserCounts(g: Graph, f: Filters, c: Vertex, x: Vertex)
    requires IsForest(g) && c in g.data && Exposed(g, f, c, x)
    ensures AtLeast(ForestRaises(VisitedTree(g, f, c).kids), Raises(VisitedTree(g, f, x)))
    decreases x
  {
    var p := Parent(g, x).value;
    ChildrenFacts(g, p);
    ForestRaiserHolds(g, f, p, Children(g, p), x);
    if p != c { RaiserCounts(g, f, c, p); }
  }

  /** The severity raised on c from below is the greatest among the elements exposed to it. */
  lemma SeverityMeansGreatestExposed(g: Graph, f: Filters, c: Vertex, s: Option<int>)
    requires IsForest(g) && c in g.data
    ensures ForestRaises(VisitedTree(g, f, c).kids) == s <==> GreatestExposed(g, f, c, s)
  {
    var raised := ForestRaises(VisitedTree(g, f, c).kids);
    if raised.Some? {
      ChildrenFacts(g, c);
      var e := RaiserFound(g, f, c, Children(g, c));
      assert Raiser(g, f, c, e, raised.value);
    }
    forall e, o | Raiser(g, f, c, e, o) ensures AtLeast(raised, Some(o)) { RaiserCounts(g, f, c, e); }
  }

  // ----- the whole answer -------------------------------------------------------------------

  ghost predicate NaiveSuppressed(g: Graph, f: Filters, c: Vertex)
    requires IsForest(g) && c in g.data
  {
    || (exists e :: Suppressor(g, f, c, e))
    || (IsElement(g.data[c]) && OwnSuppressed(g.data[c]))
  }

  ghost predicate NaiveSeverity(g: Graph, f: Filters, c: Vertex, s: Option<int>)
    requires IsForest(g) && c in g.data
  {
    if IsElement(g.data[c]) && OwnSeverity(g.data[c]).Some? then s == OwnSeverity(g.data[c])
    else GreatestExposed(g, f, c, s)
  }

  ghost predicate NaiveModels(g: Graph, f: Filters, kpis: seq<string>, c: Vertex, ids: set<string>)
    requires IsForest(g)
  {
    forall id :: id in ids <==> exists m :: m in g.data && ModelOf(g, f, kpis, c, m) && g.data[m].id == id
  }

  /** An entry of the answer, checked against the graph by climbing only. */
  ghost predicate NaiveChild(g: Graph, f: Filters, kpis: seq<string>, c: Vertex, child: Child)
    requires IsForest(g) && c in g.data
  {
    && NaiveModels(g, f, kpis, c, child.models)
    && exists s :: NaiveSeverity(g, f, c, s)
        && Dressed(child.props, g.data[c].properties, NaiveSuppressed(g, f, c), s)
  }

  /** Children without a witness are skipped, the others appear in child order. */
  ghost predicate NaiveAnswer(g: Graph, f: Filters, kpis: seq<string>, cs: seq<Vertex>, answer: seq<Child>)
    requires IsForest(g) && forall c :: c in cs ==> c in g.data
  {
    if cs == [] then answer == []
    else if exists e :: Witness(g, f, kpis, cs[0], e) then
      answer != [] && NaiveChild(g, f, kpis, cs[0], answer[0]) && NaiveAnswer(g, f, kpis, cs[1..], answer[1..])
    else NaiveAnswer(g, f, kpis, cs[1..], answer)
  }

  lemma ChildIsNaive(g: Graph, f: Filters, kpis: seq<string>, s: Vertex, c: Vertex)
    requires IsForest(g) && s in g.data && c in g.data && Parent(g, c) == Some(s)
    ensures NaiveChild(g, f, kpis, c, ChildOf(kpis, g.data[s].id, VisitedTree(g, f, c)))
  {
    var h := VisitedTree(g, f, c);
    SuppressionMeansExposed(g, f, c);
    SeverityMeansGreatestExposed(g, f, c, ForestRaises(h.kids));
    assert NaiveSeverity(g, f, c, MarkedSeverity(h));
    MarksDress(g.data[c].properties, MarkedSuppressed(h), MarkedSeverity(h));
    VisitedLabelled(g, f, c);
    ModelIdsAgree(g, kpis, s, h);
    forall m ensures m in ModelsIn(kpis, s, h) <==> ModelOf(g, f, kpis, c, m) {
      ModelsMeanParents(g, f, kpis, s, c, m);
    }
    assert NaiveModels(g, f, kpis, c, IdsOf(g, ModelsIn(kpis, s, h)));
  }

  lemma {:induction false} ChildrenAreNaive(g: Graph, f: Filters, kpis: seq<string>, s: Vertex, cs: seq<Vertex>)
    requires IsForest(g) && s in g.data && AreChildren(g, s, cs)
    ensures NaiveAnswer(g, f, kpis, cs, ChildrenOf(kpis, g.data[s].id, PrunedForest(f, ForestOf(g, s, cs))))
  {
    if cs != [] {
      assert cs[0] in cs && Edge(s, cs[0]) in g.edges;
      var c := cs[0];
      var later := ChildrenOf(kpis, g.data[s].id, PrunedForest(f, ForestOf(g, s, cs[1..])));
      SourceUnique(g.edges, s, c);
      ValidMeansWitness(g, f, kpis, c);
      ChildIsNaive(g, f, kpis, s, c);
      ChildrenAreNaive(g, f, kpis, s, cs[1..]);
      assert ([ChildOf(kpis, g.data[s].id, VisitedTree(g, f, c))] + later)[1..] == later;
      assert [] + later == later;
    }
  }

  /** The one-pass query answers what the naive reading answers; below a terminated start
      there is nothing to answer. */
  lemma AnswerIsNaive(g: Graph, f: Filters, kpis: seq<string>, s: Vertex)
    requires IsForest(g) && s in g.data
    ensures AreChildren(g, s, Children(g, s)) && forall c :: c in Children(g, s) ==> c in g.data
    ensures if Terminates(f, g.data[s]) then Answer(g, f, kpis, s) == []
            else NaiveAnswer(g, f, kpis, Children(g, s), Answer(g, f, kpis, s))
  {
    ChildrenFacts(g, s);
    ChildrenAreNaive(g, f, kpis, s, Children(g, s));
  }

  // ----- every visited vertex ---------------------------------------------------------------

  /** The readings of a forest at one of its vertices are those of the visited tree below it. */
  ghost predicate ReadAt(g: Graph, f: Filters, kpis: seq<string>, ts: Forest, x: Vertex)
    requires IsForest(g) && x in g.data
  {
    var t := VisitedTree(g, f, x);
    && (x in ForestValidIn(kpis, ts) <==> HasPassing(kpis, t))
    && (x in ForestSuppressedIn(ts) <==> MarkedSuppressed(t))
    && SeverityAt(ForestSeverityIn(ts), x) == MarkedSeverity(t)
    && (x in ForestAccessIn(ts) <==> StringAt(g.data[x].properties, "dataaccesslevel").Some?)
    && (x in ForestAccessIn(ts) ==>
          StringAt(g.data[x].properties, "dataaccesslevel") == Some(ForestAccessIn(ts)[x]))
  }

  lemma {:induction false} ReadEverywhere(g: Graph, f: Filters, kpis: seq<string>, u: Vertex, cs: seq<Vertex>,
        x: Vertex)
    requires IsForest(g) && AreChildren(g, u, cs) && ForestDistinct(PrunedForest(f, ForestOf(g, u, cs)))
    requires x in ForestVerts(PrunedForest(f, ForestOf(g, u, cs))) && x in g.data
    ensures ReadAt(g, f, kpis, PrunedForest(f, ForestOf(g, u, cs)), x)
    decreases g.next - u, |cs|
  {
    assert cs[0] in cs && Edge(u, cs[0]) in g.edges;
    var h, rest := VisitedTree(g, f, cs[0]), PrunedForest(f, ForestOf(g, u, cs[1..]));
    if x == cs[0] {
      HeadSets(kpis, h, rest);
      HeadMaps(h, rest);
    } else if x in ForestVerts(h.kids) {
      assert h.kids != Nil by { assert ForestVerts(Nil) == {}; }
      ChildrenFacts(g, cs[0]);
      ReadEverywhere(g, f, kpis, cs[0], Children(g, cs[0]), x);
      BelowReadings(kpis, h, rest, x);
    } else {
      ReadEverywhere(g, f, kpis, u, cs[1..], x);
      LaterReadings(kpis, h, rest, x);
    }
  }

  lemma ReadBelowStart(g: Graph, f: Filters, kpis: seq<string>, s: Vertex, x: Vertex)
    requires IsForest(g) && s in g.data && x != s && ClearPath(g, f, s, x)
    ensures x in ForestVerts(VisitedTree(g, f, s).kids) && ReadAt(g, f, kpis, VisitedTree(g, f, s).kids, x)
  {
    var t := VisitedTree(g, f, s);
    PruningIsPathFilter(g, f, s, x);
    TreeDistinct(g, s);
    PrunedVerts(f, TreeOf(g, s));
    ChildrenFacts(g, s);
    assert t.kids != Nil by { assert ForestVerts(Nil) == {}; }
    ReadEverywhere(g, f, kpis, s, Children(g, s), x);
  }

  /** What the visitor holds after the traversal, vertex by vertex, against the naive reading:
      valid means a passing element is reached from there, suppression and severity come from
      the elements exposed to it, and the access level is the vertex's own, never inherited. */
  lemma OnePassExact(g: Graph, f: Filters, kpis: seq<string>, s: Vertex, x: Vertex)
    requires IsForest(g) && s in g.data && !IsPassing(kpis, g.data[s])
    requires x in g.data && x != s
    ensures var m := Run(kpis, NO_MARKS, Events(VisitedTree(g, f, s)));
            if ClearPath(g, f, s, x) then
              && (x in m.valid <==> exists e :: Witness(g, f, kpis, x, e))
              && (x in m.suppressed <==> NaiveSuppressed(g, f, x))
              && NaiveSeverity(g, f, x, SeverityAt(m.severity, x))
              && (x in m.access <==> StringAt(g.data[x].properties, "dataaccesslevel").Some?)
              && (x in m.access ==> StringAt(g.data[x].properties, "dataaccesslevel") == Some(m.access[x]))
            else
              x !in m.valid && x !in m.suppressed && x !in m.severity && x !in m.access
  {
    var t := VisitedTree(g, f, s);
    TreeDistinct(g, s);
    PrunedVerts(f, TreeOf(g, s));
    OnePassIsRecursive(kpis, t);
    PruningIsPathFilter(g, f, s, x);
    if ClearPath(g, f, s, x) {
      ReadBelowStart(g, f, kpis, s, x);
      ValidMeansWitness(g, f, kpis, x);
      SuppressionMeansExposed(g, f, x);
      SeverityMeansGreatestExposed(g, f, x, ForestRaises(VisitedTree(g, f, x).kids));
    } else {
      ValidInside(kpis, t.kids);
      MarksInside(t.kids);
    }
  }
}
