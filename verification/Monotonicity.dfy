/** Widening the filters of a `nodes` query: nothing returned is lost, nothing is lowered. */
module Monotonicity {
  import opened Values
  import opened Graphs
  import opened Trees
  import opened Filters
  import opened Visitor
  import opened Aggregates
  import opened NodesQuery
  import opened NaiveNodes
  import opened CrossQuery

  // ----- wider lists ------------------------------------------------------------------------

  ghost predicate Includes(l: seq<string>, l': seq<string>) {
    forall x :: x in l ==> x in l'
  }

  /** A non-empty list grows, or stays as it is. */
  ghost predicate Enlarged(l: seq<string>, l': seq<string>) {
    l == l' || (l != [] && Includes(l, l'))
  }

  /** A list is enlarged or dropped. */
  ghost predicate Widened(l: seq<string>, l': seq<string>) {
    l' == [] || Enlarged(l, l')
  }

  ghost predicate FiltersWidened(f: Filters, f': Filters) {
    Enlarged(f.level1, f'.level1) && Widened(f.owners, f'.owners) && Widened(f.classes, f'.classes)
  }

  lemma WiderTerminatesLess(f: Filters, f': Filters, d: Modelhierarchy)
    requires FiltersWidened(f, f')
    ensures Terminates(f', d) ==> Terminates(f, d)
  {
    if f.level1 != [] {
      assert f.level1[0] in f.level1;
    }
  }

  lemma WiderPassesMore(kpis: seq<string>, kpis': seq<string>, d: Modelhierarchy)
    requires Widened(kpis, kpis')
    ensures IsPassing(kpis, d) ==> IsPassing(kpis', d)
  {
  }

  // ----- wider trees ------------------------------------------------------------------------

  /** Everywhere in the tree f' terminates only where f does. */
  ghost predicate LooserOn(f: Filters, f': Filters, t: Tree) {
    (Terminates(f', t.data) ==> Terminates(f, t.data)) && ForestLooserOn(f, f', t.kids)
  }

  ghost predicate ForestLooserOn(f: Filters, f': Filters, ts: Forest) {
    match ts
    case Nil => true
    case Cons(h, rest) => LooserOn(f, f', h) && ForestLooserOn(f, f', rest)
  }

  lemma {:induction false} WiderIsLooser(f: Filters, f': Filters, t: Tree)
    requires FiltersWidened(f, f')
    ensures LooserOn(f, f', t)
  {
    WiderTerminatesLess(f, f', t.data);
    ForestWiderIsLooser(f, f', t.kids);
  }

  lemma {:induction false} ForestWiderIsLooser(f: Filters, f': Filters, ts: Forest)
    requires FiltersWidened(f, f')
    ensures ForestLooserOn(f, f', ts)
  {
    match ts
    case Nil =>
    case Cons(h, rest) => WiderIsLooser(f, f', h); ForestWiderIsLooser(f, f', rest);
  }

  /** Dropping the level-1 filter is safe where level-1 vertices are typed as non-models. */
  ghost predicate Level1Typed(t: Tree) {
    && (IntAt(t.data.properties, "levelno") == Some(1) ==>
          "type" in t.data.properties && t.data.properties["type"] != StrV("model"))
    && ForestLevel1Typed(t.kids)
  }

  ghost predicate ForestLevel1Typed(ts: Forest) {
    match ts
    case Nil => true
    case Cons(h, rest) => Level1Typed(h) && ForestLevel1Typed(rest)
  }

  lemma {:induction false} DroppingLevel1IsLooser(f: Filters, t: Tree)
    requires Level1Typed(t)
    ensures LooserOn(f, f.(level1 := []), t)
  {
    ForestDroppingLevel1IsLooser(f, t.kids);
  }

  lemma {:induction false} ForestDroppingLevel1IsLooser(f: Filters, ts: Forest)
    requires ForestLevel1Typed(ts)
    ensures ForestLooserOn(f, f.(level1 := []), ts)
  {
    match ts
    case Nil =>
    case Cons(h, rest) => DroppingLevel1IsLooser(f, h); ForestDroppingLevel1IsLooser(f, rest);
  }

  /** What the wider query sees of a subtree includes what the narrower one sees. */
  ghost predicate SeesMore(kpis: seq<string>, kpis': seq<string>, parent: string, t: Tree, t': Tree) {
    && (HasPassing(kpis, t) ==> HasPassing(kpis', t'))
    && (Suppresses(t) ==> Suppresses(t'))
    && AtLeast(Raises(t'), Raises(t))
    && ModelIds(kpis, parent, t) <= ModelIds(kpis', parent, t')
    && (MarkedSuppressed(t) ==> MarkedSuppressed(t'))
    && AtLeast(MarkedSeverity(t'), MarkedSeverity(t))
  }

  lemma {:induction false} LooserSeesMore(f: Filters, f': Filters, kpis: seq<string>, kpis': seq<string>,
        parent: string, t: Tree)
    requires LooserOn(f, f', t) && Widened(kpis, kpis')
    ensures SeesMore(kpis, kpis', parent, Pruned(f, t), Pruned(f', t))
    decreases t
  {
    WiderPassesMore(kpis, kpis', t.data);
    ForestLooserSeesMore(f, f', kpis, kpis', t.data.id, t.kids);
    if Terminates(f, t.data) {
      assert !ForestHasPassing(kpis, Nil) && !ForestSuppresses(Nil) && ForestRaises(Nil).None?;
      assert ForestModelIds(kpis, t.data.id, Nil) == {};
    }
  }

  lemma {:induction false} ForestLooserSeesMore(f: Filters, f': Filters, kpis: seq<string>, kpis': seq<string>,
        parent: string, ts: Forest)
    requires ForestLooserOn(f, f', ts) && Widened(kpis, kpis')
    ensures var a, a' := PrunedForest(f, ts), PrunedForest(f', ts);
            && (ForestHasPassing(kpis, a) ==> ForestHasPassing(kpis', a'))
            && (ForestSuppresses(a) ==> ForestSuppresses(a'))
            && AtLeast(ForestRaises(a'), ForestRaises(a))
            && ForestModelIds(kpis, parent, a) <= ForestModelIds(kpis', parent, a')
    decreases ts
  {
    match ts
    case Nil =>
    case Cons(h, rest) =>
      LooserSeesMore(f, f', kpis, kpis', parent, h);
      ForestLooserSeesMore(f, f', kpis, kpis', parent, rest);
  }

  lemma {:induction false} LooserBelow(g: Graph, f: Filters, f': Filters, u: Vertex, cs: seq<Vertex>, c: Vertex)
    requires IsForest(g) && AreChildren(g, u, cs) && c in cs && c in g.data
    requires ForestLooserOn(f, f', ForestOf(g, u, cs))
    ensures LooserOn(f, f', TreeOf(g, c))
  {
    if c != cs[0] { LooserBelow(g, f, f', u, cs[1..], c); }
  }

  /** Every child the narrower query returns is returned by the wider one, still suppressed if
      it was, with no lower computed severity and with all its model ids. */
  lemma LooserQuery(g: Graph, f: Filters, f': Filters, kpis: seq<string>, kpis': seq<string>, s: Vertex, c: Vertex)
    requires IsForest(g) && s in g.data && c in g.data
    requires LooserOn(f, f', TreeOf(g, s)) && Widened(kpis, kpis')
    requires VisitedTree(g, f, c) in Returned(g, f, kpis, s)
    ensures VisitedTree(g, f', c) in Returned(g, f', kpis', s)
    ensures SeesMore(kpis, kpis', g.data[s].id, VisitedTree(g, f, c), VisitedTree(g, f', c))
  {
    ReturnedChildren(g, f, kpis, s, VisitedTree(g, f, c));
    ChildrenFacts(g, s);
    LooserBelow(g, f, f', s, Children(g, s), c);
    ReturnedChildren(g, f', kpis', s, VisitedTree(g, f', c));
    LooserSeesMore(f, f', kpis, kpis', g.data[s].id, TreeOf(g, c));
  }

  /** Enlarging a non-empty list, or dropping the owner, class or KPI list, loses no child of a
      query and lowers none of what it shows. */
  lemma WiderQuery(g: Graph, f: Filters, f': Filters, kpis: seq<string>, kpis': seq<string>, s: Vertex, c: Vertex)
    requires IsForest(g) && s in g.data && c in g.data
    requires FiltersWidened(f, f') && Widened(kpis, kpis')
    requires VisitedTree(g, f, c) in Returned(g, f, kpis, s)
    ensures VisitedTree(g, f', c) in Returned(g, f', kpis', s)
    ensures SeesMore(kpis, kpis', g.data[s].id, VisitedTree(g, f, c), VisitedTree(g, f', c))
  {
    WiderIsLooser(f, f', TreeOf(g, s));
    LooserQuery(g, f, f', kpis, kpis', s, c);
  }

  /** And so does dropping the level-1 list where level-1 vertices are typed as non-models. */
  lemma DroppingLevel1Typed(g: Graph, f: Filters, kpis: seq<string>, s: Vertex, c: Vertex)
    requires IsForest(g) && s in g.data && c in g.data && Level1Typed(TreeOf(g, s))
    requires VisitedTree(g, f, c) in Returned(g, f, kpis, s)
    ensures VisitedTree(g, f.(level1 := []), c) in Returned(g, f.(level1 := []), kpis, s)
    ensures SeesMore(kpis, kpis, g.data[s].id, VisitedTree(g, f, c), VisitedTree(g, f.(level1 := []), c))
  {
    DroppingLevel1IsLooser(f, TreeOf(g, s));
    LooserQuery(g, f, f.(level1 := []), kpis, kpis, s, c);
  }

  // ----- dropping the level-1 list ----------------------------------------------------------

  /** Climbing from x reaches c, and no vertex met after x is stopped by the owner and class
      lists. */
  ghost predicate UnstoppedPath(g: Graph, f: Filters, c: Vertex, x: Vertex)
    requires IsForest(g)
    decreases x
  {
    && x in g.data
    && (x == c
        || (var p := Parent(g, x);
            p.Some? && p.value in g.data && !ListsStop(f, g.data[p.value]) && UnstoppedPath(g, f, c, p.value)))
  }

  lemma {:induction false} UnstoppedMeansClear(g: Graph, f: Filters, c: Vertex, x: Vertex)
    requires IsForest(g)
    ensures ClearPath(g, f.(level1 := []), c, x) <==> UnstoppedPath(g, f, c, x)
    decreases x
  {
    if x != c && Parent(g, x).Some? {
      var p := Parent(g, x).value;
      if p in g.data { TerminatesExactly(f.(level1 := []), g.data[p]); }
      assert Edge(p, x) in g.edges;
      UnstoppedMeansClear(g, f, c, p);
    }
  }

  /** Dropping the level-1 list can lose a child: a listed level-1 vertex is let through without
      looking at its owner and class. A returned child stays returned if and only if the other
      lists stop neither s nor every way from the child to a passing element. */
  lemma DroppingLevel1(g: Graph, f: Filters, kpis: seq<string>, s: Vertex, c: Vertex)
    requires IsForest(g) && s in g.data && c in g.data && VisitedTree(g, f, c) in Returned(g, f, kpis, s)
    ensures VisitedTree(g, f.(level1 := []), c) in Returned(g, f.(level1 := []), kpis, s) <==>
              && !ListsStop(f, g.data[s])
              && exists e :: e in g.data && IsPassing(kpis, g.data[e]) && UnstoppedPath(g, f, c, e)
  {
    var f0 := f.(level1 := []);
    ReturnedChildren(g, f, kpis, s, VisitedTree(g, f, c));
    ReturnedChildren(g, f0, kpis, s, VisitedTree(g, f0, c));
    ValidMeansWitness(g, f0, kpis, c);
    TerminatesExactly(f0, g.data[s]);
    forall e ensures ClearPath(g, f0, c, e) <==> UnstoppedPath(g, f, c, e) { UnstoppedMeansClear(g, f, c, e); }
    if e :| Witness(g, f0, kpis, c, e) { assert UnstoppedPath(g, f, c, e); }
    if e :| e in g.data && IsPassing(kpis, g.data[e]) && UnstoppedPath(g, f, c, e) {
      assert Witness(g, f0, kpis, c, e);
    }
  }

  /** A listed level-1 vertex that the other lists stop. */
  ghost predicate Admitted(f: Filters, d: Modelhierarchy) {
    IntAt(d.properties, "levelno") == Some(1) && d.id in f.level1 && ListsStop(f, d)
  }

  lemma {:induction false} BlockedByAdmitted(g: Graph, f: Filters, c: Vertex, x: Vertex) returns (v: Vertex)
    requires IsForest(g) && ClearPath(g, f, c, x) && !UnstoppedPath(g, f, c, x)
    ensures ClearPath(g, f, c, v) && Admitted(f, g.data[v])
    decreases x
  {
    var p := Parent(g, x).value;
    TerminatesExactly(f, g.data[p]);
    if ListsStop(f, g.data[p]) { v := p; } else { v := BlockedByAdmitted(g, f, c, p); }
  }

  /** Only such a vertex, visited by the narrower query, can lose it a child. */
  lemma LostThroughAdmitted(g: Graph, f: Filters, kpis: seq<string>, s: Vertex, c: Vertex) returns (v: Vertex)
    requires IsForest(g) && s in g.data && c in g.data && VisitedTree(g, f, c) in Returned(g, f, kpis, s)
    requires VisitedTree(g, f.(level1 := []), c) !in Returned(g, f.(level1 := []), kpis, s)
    ensures v in g.data && (v == s || ClearPath(g, f, c, v)) && Admitted(f, g.data[v])
  {
    DroppingLevel1(g, f, kpis, s, c);
    ReturnedChildren(g, f, kpis, s, VisitedTree(g, f, c));
    TerminatesExactly(f, g.data[s]);
    if ListsStop(f, g.data[s]) {
      v := s;
    } else {
      var e := PassingFound(g, f, kpis, c);
      v := BlockedByAdmitted(g, f, c, e);
    }
  }
}
