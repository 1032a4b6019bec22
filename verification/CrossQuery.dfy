/** What one `nodes` query says about another: the entry of a vertex in its parent's answer
    against the answer to the query on it. */
module CrossQuery {
  import opened Values
  import opened Graphs
  import opened Trees
  import opened Filters
  import opened Visitor
  import opened Aggregates
  import opened NodesQuery
  import opened NaiveNodes

  // ----- the entries and the vertices they stand for ----------------------------------------

  /** The subtree below a child is the tree the query on that child visits, and the child is
      returned if and only if it has a passing element and its parent is not terminated. */
  lemma {:induction false} ReturnedIffPassing(g: Graph, f: Filters, kpis: seq<string>, u: Vertex,
        cs: seq<Vertex>, h: Tree)
    requires IsForest(g) && AreChildren(g, u, cs)
    ensures h in ReturnedOf(kpis, PrunedForest(f, ForestOf(g, u, cs)))
       <==> h.v in cs && h.v in g.data && h == VisitedTree(g, f, h.v) && HasPassing(kpis, h)
  {
    if cs != [] {
      assert cs[0] in cs && Edge(u, cs[0]) in g.edges;
      ReturnedIffPassing(g, f, kpis, u, cs[1..], h);
    }
  }

  lemma ReturnedChildren(g: Graph, f: Filters, kpis: seq<string>, s: Vertex, h: Tree)
    requires IsForest(g) && s in g.data
    ensures h in Returned(g, f, kpis, s)
       <==> !Terminates(f, g.data[s]) && Edge(s, h.v) in g.edges && h == VisitedTree(g, f, h.v) && HasPassing(kpis, h)
  {
    ChildrenFacts(g, s);
    ReturnedIffPassing(g, f, kpis, s, Children(g, s), h);
  }

  // ----- drilling down ----------------------------------------------------------------------

  lemma {:induction false} NothingReturned(kpis: seq<string>, ts: Forest)
    ensures ReturnedOf(kpis, ts) == [] <==> !ForestHasPassing(kpis, ts)
  {
    match ts
    case Nil =>
    case Cons(_, rest) => NothingReturned(kpis, rest);
  }

  /** A child that is not itself a passing element is worth returning exactly when the query
      on it, under the same filters, returns something: drilling down never dead-ends. */
  lemma DrillDown(g: Graph, f: Filters, kpis: seq<string>, s: Vertex, c: Vertex)
    requires IsForest(g) && s in g.data && Edge(s, c) in g.edges
    requires !Terminates(f, g.data[s]) && !IsPassing(kpis, g.data[c])
    ensures VisitedTree(g, f, c) in Returned(g, f, kpis, s) <==> Answer(g, f, kpis, c) != []
  {
    var h := VisitedTree(g, f, c);
    ReturnedChildren(g, f, kpis, s, h);
    NothingReturned(kpis, h.kids);
    EntriesAreReturned(kpis, h.data.id, h.kids);
  }

  // ----- entries and children ---------------------------------------------------------------

  /** The query on c returns its child d: c is not terminated, and a passing element is
      reached from d. */
  ghost predicate ReturnedChild(g: Graph, f: Filters, kpis: seq<string>, c: Vertex, d: Vertex)
    requires IsForest(g) && c in g.data
  {
    !Terminates(f, g.data[c]) && Edge(c, d) in g.edges && exists w :: Witness(g, f, kpis, d, w)
  }

  ghost function Entry(g: Graph, f: Filters, kpis: seq<string>, c: Vertex, d: Vertex): Child
    requires IsForest(g) && c in g.data && d in g.data
  {
    ChildOf(kpis, g.data[c].id, VisitedTree(g, f, d))
  }

  lemma EntryOfChild(g: Graph, f: Filters, kpis: seq<string>, c: Vertex, i: nat)
    requires IsForest(g) && c in g.data && i < |Answer(g, f, kpis, c)|
    ensures |Returned(g, f, kpis, c)| == |Answer(g, f, kpis, c)|
    ensures var d := Returned(g, f, kpis, c)[i].v;
            d in g.data && ReturnedChild(g, f, kpis, c, d) && Answer(g, f, kpis, c)[i] == Entry(g, f, kpis, c, d)
  {
    EntriesAreReturned(kpis, g.data[c].id, VisitedTree(g, f, c).kids);
    var h := Returned(g, f, kpis, c)[i];
    ReturnedChildren(g, f, kpis, c, h);
    ValidMeansWitness(g, f, kpis, h.v);
  }

  lemma ChildHasEntry(g: Graph, f: Filters, kpis: seq<string>, c: Vertex, d: Vertex)
    requires IsForest(g) && c in g.data && ReturnedChild(g, f, kpis, c, d)
    ensures d in g.data && Entry(g, f, kpis, c, d) in Answer(g, f, kpis, c)
  {
    EntriesAreReturned(kpis, g.data[c].id, VisitedTree(g, f, c).kids);
    ValidMeansWitness(g, f, kpis, d);
    ReturnedChildren(g, f, kpis, c, VisitedTree(g, f, d));
    var i :| 0 <= i < |Returned(g, f, kpis, c)| && Returned(g, f, kpis, c)[i] == VisitedTree(g, f, d);
    assert Answer(g, f, kpis, c)[i] == Entry(g, f, kpis, c, d);
  }

  /** The entries of an answer are those of the returned children. */
  lemma AnswerLists(g: Graph, f: Filters, kpis: seq<string>, c: Vertex)
    requires IsForest(g) && c in g.data
    ensures forall x :: x in Answer(g, f, kpis, c) ==>
              exists d :: d in g.data && ReturnedChild(g, f, kpis, c, d) && x == Entry(g, f, kpis, c, d)
    ensures forall d :: ReturnedChild(g, f, kpis, c, d) ==>
              d in g.data && Entry(g, f, kpis, c, d) in Answer(g, f, kpis, c)
  {
    forall x | x in Answer(g, f, kpis, c)
      ensures exists d :: d in g.data && ReturnedChild(g, f, kpis, c, d) && x == Entry(g, f, kpis, c, d)
    {
      var i :| 0 <= i < |Answer(g, f, kpis, c)| && Answer(g, f, kpis, c)[i] == x;
      EntryOfChild(g, f, kpis, c, i);
    }
    forall d | ReturnedChild(g, f, kpis, c, d)
      ensures d in g.data && Entry(g, f, kpis, c, d) in Answer(g, f, kpis, c)
    {
      ChildHasEntry(g, f, kpis, c, d);
    }
  }

  /** The dictionary that stands for c in the answer it is returned in, model ids aside. */
  ghost function Reported(g: Graph, f: Filters, c: Vertex): Node
    requires IsForest(g) && c in g.data
  {
    var h := VisitedTree(g, f, c);
    WithMarks(g.data[c].properties, MarkedSuppressed(h), MarkedSeverity(h))
  }

  /** e is reached from a returned child of c, so an entry of the answer can show it. */
  ghost predicate UnderReturned(g: Graph, f: Filters, kpis: seq<string>, c: Vertex, e: Vertex)
    requires IsForest(g) && c in g.data
  {
    exists d :: ReturnedChild(g, f, kpis, c, d) && ClearPath(g, f, d, e)
  }

  // ----- suppression of a parent against its children ---------------------------------------

  ghost predicate AnySuppressed(cs: seq<Child>) {
    exists x :: x in cs && FlagAt(x.props, "issuppressed")
  }

  /** The oracle of the unit tests at one vertex: unless the query on c returns nothing, c is
      reported suppressed if and only if some entry of that query is. */
  ghost predicate SuppressionLaw(g: Graph, f: Filters, kpis: seq<string>, c: Vertex)
    requires IsForest(g) && c in g.data
  {
    Answer(g, f, kpis, c) != [] ==>
      (FlagAt(Reported(g, f, c), "issuppressed") <==> AnySuppressed(Answer(g, f, kpis, c)))
  }

  /** A returned element that takes suppression from below and does not pass it on. */
  ghost predicate Shadow(g: Graph, f: Filters, kpis: seq<string>, c: Vertex, d: Vertex)
    requires IsForest(g) && c in g.data
  {
    && ReturnedChild(g, f, kpis, c, d) && d in g.data && IsElement(g.data[d]) && !OwnSuppressed(g.data[d])
    && exists e :: Suppressor(g, f, d, e)
  }

  lemma ReportedSuppressed(g: Graph, f: Filters, c: Vertex)
    requires IsForest(g) && c in g.data
    ensures FlagAt(Reported(g, f, c), "issuppressed") <==> NaiveSuppressed(g, f, c)
  {
    SuppressionMeansExposed(g, f, c);
  }

  lemma AnySuppressedChild(g: Graph, f: Filters, kpis: seq<string>, c: Vertex)
    requires IsForest(g) && c in g.data
    ensures AnySuppressed(Answer(g, f, kpis, c))
       <==> exists d :: d in g.data && ReturnedChild(g, f, kpis, c, d) && NaiveSuppressed(g, f, d)
  {
    AnswerLists(g, f, kpis, c);
    forall d | d in g.data
      ensures FlagAt(Entry(g, f, kpis, c, d).props, "issuppressed") <==> NaiveSuppressed(g, f, d)
    {
      ReportedSuppressed(g, f, d);
    }
  }

  /** What a returned child shows is either passed on to c, or shadowed by that child. */
  lemma SuppressedChildPasses(g: Graph, f: Filters, kpis: seq<string>, c: Vertex, d: Vertex)
    requires IsForest(g) && c in g.data && d in g.data
    requires ReturnedChild(g, f, kpis, c, d) && NaiveSuppressed(g, f, d) && !Shadow(g, f, kpis, c, d)
    ensures exists e :: Suppressor(g, f, c, e) && UnderReturned(g, f, kpis, c, e)
  {
    SourceUnique(g.edges, c, d);
    if IsElement(g.data[d]) {
      assert Suppressor(g, f, c, d);
      assert ClearPath(g, f, d, d);
    } else {
      var e :| Suppressor(g, f, d, e);
      ExposedThrough(g, f, c, d, e);
      ExposedClear(g, f, d, e);
      assert Suppressor(g, f, c, e);
    }
  }

  lemma SuppressorShows(g: Graph, f: Filters, kpis: seq<string>, c: Vertex, d: Vertex, e: Vertex)
    requires IsForest(g) && c in g.data && Suppressor(g, f, c, e)
    requires ReturnedChild(g, f, kpis, c, d) && ClearPath(g, f, d, e)
    ensures d in g.data && NaiveSuppressed(g, f, d)
  {
    SourceUnique(g.edges, c, d);
    if e != d {
      ExposedBelow(g, f, c, d, e);
      assert Suppressor(g, f, d, e);
    }
  }

  lemma AnySuppressedMeans(g: Graph, f: Filters, kpis: seq<string>, c: Vertex)
    requires IsForest(g) && c in g.data
    ensures AnySuppressed(Answer(g, f, kpis, c)) <==>
              || (exists e :: Suppressor(g, f, c, e) && UnderReturned(g, f, kpis, c, e))
              || (exists d :: Shadow(g, f, kpis, c, d))
  {
    AnySuppressedChild(g, f, kpis, c);
    if d :| d in g.data && ReturnedChild(g, f, kpis, c, d) && NaiveSuppressed(g, f, d) && !Shadow(g, f, kpis, c, d) {
      SuppressedChildPasses(g, f, kpis, c, d);
    }
    if e :| Suppressor(g, f, c, e) && UnderReturned(g, f, kpis, c, e) {
      var d :| ReturnedChild(g, f, kpis, c, d) && ClearPath(g, f, d, e);
      SuppressorShows(g, f, kpis, c, d, e);
    }
  }

  lemma AnswerEmpty(g: Graph, f: Filters, kpis: seq<string>, c: Vertex)
    requires IsForest(g) && c in g.data
    ensures Answer(g, f, kpis, c) != [] <==> exists d :: ReturnedChild(g, f, kpis, c, d)
  {
    AnswerLists(g, f, kpis, c);
    if Answer(g, f, kpis, c) != [] { assert Answer(g, f, kpis, c)[0] in Answer(g, f, kpis, c); }
  }

  /** Exactly when the oracle holds at c, elements with something below them included: if c is
      suppressed, something that suppresses it is reached from a returned child, or a returned
      element shadows some other suppression; if it is not, no returned element does. */
  lemma SuppressionLawExact(g: Graph, f: Filters, kpis: seq<string>, c: Vertex)
    requires IsForest(g) && c in g.data
    ensures SuppressionLaw(g, f, kpis, c) <==>
              ((exists d :: ReturnedChild(g, f, kpis, c, d)) ==>
                 if NaiveSuppressed(g, f, c) then
                   || (exists e :: Suppressor(g, f, c, e) && UnderReturned(g, f, kpis, c, e))
                   || (exists d :: Shadow(g, f, kpis, c, d))
                 else
                   !exists d :: Shadow(g, f, kpis, c, d))
  {
    AnswerEmpty(g, f, kpis, c);
    ReportedSuppressed(g, f, c);
    AnySuppressedMeans(g, f, kpis, c);
  }

  /** No model element has anything below it. */
  ghost predicate ElementsAreLeaves(g: Graph) {
    forall e :: e in g.edges ==> e.source in g.data && !IsElement(g.data[e.source])
  }

  lemma NothingBelowLeaf(g: Graph, f: Filters, d: Vertex, e: Vertex)
    requires IsForest(g) && ElementsAreLeaves(g) && d in g.data && IsElement(g.data[d])
    ensures !Exposed(g, f, d, e)
  {
    if Exposed(g, f, d, e) { var x := ExposedChild(g, f, d, e); }
  }

  lemma UnfilteredUnderReturned(g: Graph, f: Filters, c: Vertex, e: Vertex)
    requires IsForest(g) && c in g.data && Exposed(g, f, c, e) && IsElement(g.data[e])
    ensures UnderReturned(g, f, [], c, e)
  {
    var d := ExposedChild(g, f, c, e);
    assert Witness(g, f, [], d, e);
  }

  /** Without a KPI filter the oracle fails at a non-element exactly when a returned element
      shadows suppression and nothing suppresses c. With elements as leaves it never fails
      without a KPI filter, and with one exactly when something is returned and all that
      suppresses c is hidden. */
  lemma SuppressionConsistent(g: Graph, f: Filters, kpis: seq<string>, c: Vertex)
    requires IsForest(g) && c in g.data && !IsElement(g.data[c])
    ensures kpis == [] ==>
              (SuppressionLaw(g, f, kpis, c) <==>
                 ((exists d :: Shadow(g, f, kpis, c, d)) ==> exists e :: Suppressor(g, f, c, e)))
    ensures ElementsAreLeaves(g) ==>
              (SuppressionLaw(g, f, kpis, c) <==>
                 ((exists d :: ReturnedChild(g, f, kpis, c, d)) && (exists e :: Suppressor(g, f, c, e)) ==>
                    exists e :: Suppressor(g, f, c, e) && UnderReturned(g, f, kpis, c, e)))
    ensures ElementsAreLeaves(g) && kpis == [] ==> SuppressionLaw(g, f, kpis, c)
  {
    SuppressionLawExact(g, f, kpis, c);
    if kpis == [] {
      forall e | Suppressor(g, f, c, e) ensures UnderReturned(g, f, kpis, c, e) {
        UnfilteredUnderReturned(g, f, c, e);
      }
    }
    if ElementsAreLeaves(g) {
      forall d ensures !Shadow(g, f, kpis, c, d) {
        if Shadow(g, f, kpis, c, d) {
          var e :| Suppressor(g, f, d, e);
          NothingBelowLeaf(g, f, d, e);
        }
      }
    }
  }

  // ----- severity of a parent against its children ------------------------------------------

  ghost function HighestShown(cs: seq<Child>): Option<int> {
    if cs == [] then None else Higher(IntAt(cs[0].props, "severity"), HighestShown(cs[1..]))
  }

  lemma {:induction false} HighestShownIs(cs: seq<Child>)
    ensures HighestShown(cs).Some? ==> exists x :: x in cs && IntAt(x.props, "severity") == HighestShown(cs)
    ensures forall x :: x in cs ==> AtLeast(HighestShown(cs), IntAt(x.props, "severity"))
  {
    if cs != [] { HighestShownIs(cs[1..]); }
  }

  /** The oracle counts a missing severity as -1, */
  function Counted(s: Option<int>): int {
    if s.Some? then s.value else -1
  }

  /** and takes the highest over the children from -1 upwards. */
  ghost function HighestCounted(cs: seq<Child>): (m: int)
    ensures m >= -1
  {
    if cs == [] then -1
    else
      var first, rest := Counted(IntAt(cs[0].props, "severity")), HighestCounted(cs[1..]);
      if first > rest then first else rest
  }

  /** The oracle of the unit tests at one vertex: unless the query on c returns nothing, the
      severity reported for c is the highest that query shows. */
  ghost predicate SeverityLaw(g: Graph, f: Filters, kpis: seq<string>, c: Vertex)
    requires IsForest(g) && c in g.data
  {
    Answer(g, f, kpis, c) != [] ==>
      Counted(IntAt(Reported(g, f, c), "severity")) == HighestCounted(Answer(g, f, kpis, c))
  }

  lemma {:induction false} HighestCountedIs(cs: seq<Child>)
    ensures HighestCounted(cs) == if Counted(HighestShown(cs)) > -1 then Counted(HighestShown(cs)) else -1
  {
    if cs != [] { HighestCountedIs(cs[1..]); }
  }

  /** A returned child shows severity o without raising c by it: an element that has none of
      its own and takes o from below, or a non-element that stores o with nothing below it to
      raise it. */
  ghost predicate Stray(g: Graph, f: Filters, kpis: seq<string>, c: Vertex, d: Vertex, o: int)
    requires IsForest(g) && c in g.data
  {
    && ReturnedChild(g, f, kpis, c, d) && d in g.data
    && if IsElement(g.data[d]) then OwnSeverity(g.data[d]).None? && GreatestExposed(g, f, d, Some(o))
       else OwnSeverity(g.data[d]) == Some(o) && GreatestExposed(g, f, d, None)
  }

  /** Severity o raises c and is reached from a returned child. */
  ghost predicate RaiserShown(g: Graph, f: Filters, kpis: seq<string>, c: Vertex, o: int)
    requires IsForest(g) && c in g.data
  {
    exists e :: Raiser(g, f, c, e, o) && UnderReturned(g, f, kpis, c, e)
  }

  /** The severity reported for c, given the greatest that is exposed to it: an element keeps
      its own, everything else the raised one, and a stored one shows when nothing is raised. */
  function ReportedFrom(d: Modelhierarchy, raised: Option<int>): Option<int> {
    if raised.None? || (IsElement(d) && OwnSeverity(d).Some?) then OwnSeverity(d) else raised
  }

  lemma ReportedSeverity(g: Graph, f: Filters, c: Vertex, s: Option<int>)
    requires IsForest(g) && c in g.data && GreatestExposed(g, f, c, s)
    ensures IntAt(Reported(g, f, c), "severity") == ReportedFrom(g.data[c], s)
  {
    SeverityMeansGreatestExposed(g, f, c, s);
  }

  /** Whatever a returned child shows raises c or is stray. */
  lemma ShownPassesOrStrays(g: Graph, f: Filters, kpis: seq<string>, c: Vertex, d: Vertex, o: int)
    requires IsForest(g) && c in g.data && d in g.data && ReturnedChild(g, f, kpis, c, d)
    requires IntAt(Entry(g, f, kpis, c, d).props, "severity") == Some(o)
    ensures RaiserShown(g, f, kpis, c, o) || Stray(g, f, kpis, c, d, o)
  {
    var s := ForestRaises(VisitedTree(g, f, d).kids);
    SeverityMeansGreatestExposed(g, f, d, s);
    SourceUnique(g.edges, c, d);
    if IsElement(g.data[d]) && OwnSeverity(g.data[d]).Some? {
      assert Raiser(g, f, c, d, o) && ClearPath(g, f, d, d);
    } else if !IsElement(g.data[d]) && s.Some? {
      var e :| Raiser(g, f, d, e, o);
      ExposedThrough(g, f, c, d, e);
      ExposedClear(g, f, d, e);
      assert Raiser(g, f, c, e, o);
    }
  }

  lemma StrayShows(g: Graph, f: Filters, kpis: seq<string>, c: Vertex, d: Vertex, o: int)
    requires IsForest(g) && c in g.data && Stray(g, f, kpis, c, d, o)
    ensures IntAt(Entry(g, f, kpis, c, d).props, "severity") == Some(o)
  {
    var s := if IsElement(g.data[d]) then Some(o) else None;
    SeverityMeansGreatestExposed(g, f, d, s);
  }

  /** A severity reached from a returned child is shown there, unless a greater one is. */
  lemma RaiserShows(g: Graph, f: Filters, kpis: seq<string>, c: Vertex, d: Vertex, e: Vertex, o: int)
    requires IsForest(g) && c in g.data && Raiser(g, f, c, e, o)
    requires ReturnedChild(g, f, kpis, c, d) && ClearPath(g, f, d, e)
    ensures d in g.data && AtLeast(IntAt(Entry(g, f, kpis, c, d).props, "severity"), Some(o))
  {
    SourceUnique(g.edges, c, d);
    if e != d {
      var s := ForestRaises(VisitedTree(g, f, d).kids);
      ExposedBelow(g, f, c, d, e);
      SeverityMeansGreatestExposed(g, f, d, s);
      assert Raiser(g, f, d, e, o);
    }
  }

  ghost predicate Displayed(g: Graph, f: Filters, kpis: seq<string>, c: Vertex, o: int)
    requires IsForest(g) && c in g.data
  {
    RaiserShown(g, f, kpis, c, o) || exists d :: Stray(g, f, kpis, c, d, o)
  }

  lemma DisplayedIsShown(g: Graph, f: Filters, kpis: seq<string>, c: Vertex, o: int)
    requires IsForest(g) && c in g.data && Displayed(g, f, kpis, c, o)
    ensures AtLeast(HighestShown(Answer(g, f, kpis, c)), Some(o))
  {
    HighestShownIs(Answer(g, f, kpis, c));
    if RaiserShown(g, f, kpis, c, o) {
      var e :| Raiser(g, f, c, e, o) && UnderReturned(g, f, kpis, c, e);
      var d :| ReturnedChild(g, f, kpis, c, d) && ClearPath(g, f, d, e);
      ChildHasEntry(g, f, kpis, c, d);
      RaiserShows(g, f, kpis, c, d, e, o);
    } else {
      var d :| Stray(g, f, kpis, c, d, o);
      ChildHasEntry(g, f, kpis, c, d);
      StrayShows(g, f, kpis, c, d, o);
    }
  }

  lemma ShownIsDisplayed(g: Graph, f: Filters, kpis: seq<string>, c: Vertex)
    requires IsForest(g) && c in g.data && HighestShown(Answer(g, f, kpis, c)).Some?
    ensures Displayed(g, f, kpis, c, HighestShown(Answer(g, f, kpis, c)).value)
  {
    var m := HighestShown(Answer(g, f, kpis, c));
    AnswerLists(g, f, kpis, c);
    HighestShownIs(Answer(g, f, kpis, c));
    var x :| x in Answer(g, f, kpis, c) && IntAt(x.props, "severity") == m;
    var d :| d in g.data && ReturnedChild(g, f, kpis, c, d) && x == Entry(g, f, kpis, c, d);
    ShownPassesOrStrays(g, f, kpis, c, d, m.value);
  }

  lemma HighestShownMeans(g: Graph, f: Filters, kpis: seq<string>, c: Vertex, r: Option<int>)
    requires IsForest(g) && c in g.data
    ensures HighestShown(Answer(g, f, kpis, c)) == r <==>
              && (r.Some? ==> Displayed(g, f, kpis, c, r.value))
              && (forall o :: Displayed(g, f, kpis, c, o) ==> AtLeast(r, Some(o)))
  {
    forall o | Displayed(g, f, kpis, c, o) ensures AtLeast(HighestShown(Answer(g, f, kpis, c)), Some(o)) {
      DisplayedIsShown(g, f, kpis, c, o);
    }
    if HighestShown(Answer(g, f, kpis, c)).Some? { ShownIsDisplayed(g, f, kpis, c); }
  }

  lemma RaisedIsReported(g: Graph, f: Filters, c: Vertex, e: Vertex, s: Option<int>, o: int)
    requires IsForest(g) && c in g.data && GreatestExposed(g, f, c, s)
    requires !IsElement(g.data[c]) && Raiser(g, f, c, e, o)
    ensures AtLeast(ReportedFrom(g.data[c], s), Some(o))
  {
    assert AtLeast(s, Some(o));
  }

  /** The highest severity the oracle counts on the children is r exactly if r is not below -1,
      nothing displayed exceeds it, and r is displayed unless it is -1. */
  lemma HighestCountedMeans(g: Graph, f: Filters, kpis: seq<string>, c: Vertex, r: int)
    requires IsForest(g) && c in g.data
    ensures HighestCounted(Answer(g, f, kpis, c)) == r <==>
              && r >= -1
              && (r > -1 ==> Displayed(g, f, kpis, c, r))
              && (forall o :: Displayed(g, f, kpis, c, o) ==> r >= o)
  {
    HighestCountedIs(Answer(g, f, kpis, c));
    HighestShownMeans(g, f, kpis, c, HighestShown(Answer(g, f, kpis, c)));
  }

  /** Exactly when the oracle holds at c, for every KPI list, with elements that have something
      below them and with negative severities included: the reported severity is not below -1, no
      stray severity exceeds it, it is stray or reached from a returned child unless it is counted
      as -1, and an element that keeps its own severity has no greater one reached below it. */
  lemma SeverityLawExact(g: Graph, f: Filters, kpis: seq<string>, c: Vertex, s: Option<int>)
    requires IsForest(g) && c in g.data && GreatestExposed(g, f, c, s)
    ensures var r := Counted(ReportedFrom(g.data[c], s));
            SeverityLaw(g, f, kpis, c) <==>
              ((exists d :: ReturnedChild(g, f, kpis, c, d)) ==>
                 && r >= -1
                 && (forall d, o :: Stray(g, f, kpis, c, d, o) ==> r >= o)
                 && (r > -1 ==> RaiserShown(g, f, kpis, c, r) || exists d :: Stray(g, f, kpis, c, d, r))
                 && (IsElement(g.data[c]) ==> forall o :: RaiserShown(g, f, kpis, c, o) ==> r >= o))
  {
    AnswerEmpty(g, f, kpis, c);
    ReportedSeverity(g, f, c, s);
    HighestCountedMeans(g, f, kpis, c, Counted(ReportedFrom(g.data[c], s)));
    DisplayedSplits(g, f, kpis, c, s);
  }

  lemma DisplayedSplits(g: Graph, f: Filters, kpis: seq<string>, c: Vertex, s: Option<int>)
    requires IsForest(g) && c in g.data && GreatestExposed(g, f, c, s)
    ensures var r := Counted(ReportedFrom(g.data[c], s));
            (forall o :: Displayed(g, f, kpis, c, o) ==> r >= o) <==>
              && (forall d, o :: Stray(g, f, kpis, c, d, o) ==> r >= o)
              && (IsElement(g.data[c]) ==> forall o :: RaiserShown(g, f, kpis, c, o) ==> r >= o)
  {
    if !IsElement(g.data[c]) {
      forall o | RaiserShown(g, f, kpis, c, o) ensures Counted(ReportedFrom(g.data[c], s)) >= o {
        var e :| Raiser(g, f, c, e, o) && UnderReturned(g, f, kpis, c, e);
        RaisedIsReported(g, f, c, e, s, o);
      }
    }
    forall d, o | Stray(g, f, kpis, c, d, o) ensures Displayed(g, f, kpis, c, o) {}
    forall o | RaiserShown(g, f, kpis, c, o) ensures Displayed(g, f, kpis, c, o) {}
  }

  ghost predicate OnlyElementsStoreSeverity(g: Graph) {
    forall v :: v in g.data && !IsElement(g.data[v]) ==> OwnSeverity(g.data[v]).None?
  }

  lemma NoStray(g: Graph, f: Filters, kpis: seq<string>, c: Vertex, d: Vertex, o: int)
    requires IsForest(g) && c in g.data && ElementsAreLeaves(g) && OnlyElementsStoreSeverity(g)
    ensures !Stray(g, f, kpis, c, d, o)
  {
    if Stray(g, f, kpis, c, d, o) {
      var e :| Raiser(g, f, d, e, o);
      NothingBelowLeaf(g, f, d, e);
    }
  }

  /** With elements as leaves and severities on elements only, the oracle holds at a non-element
      without a KPI filter exactly when the greatest severity that raises c is not below -1, and
      with one exactly when, if any child is returned, that is so and a greater one than -1 is
      reached from a returned child. */
  lemma SeverityConsistent(g: Graph, f: Filters, kpis: seq<string>, c: Vertex, s: Option<int>)
    requires IsForest(g) && ElementsAreLeaves(g) && OnlyElementsStoreSeverity(g)
    requires c in g.data && !IsElement(g.data[c]) && GreatestExposed(g, f, c, s)
    ensures SeverityLaw(g, f, kpis, c) <==>
              ((exists d :: ReturnedChild(g, f, kpis, c, d)) && s.Some? ==>
                 s.value >= -1 && (s.value > -1 ==> RaiserShown(g, f, kpis, c, s.value)))
    ensures kpis == [] ==> (SeverityLaw(g, f, kpis, c) <==> (s.Some? ==> s.value >= -1))
  {
    SeverityLawExact(g, f, kpis, c, s);
    forall d, o ensures !Stray(g, f, kpis, c, d, o) { NoStray(g, f, kpis, c, d, o); }
    if kpis == [] && s.Some? { GreatestIsShown(g, f, c, s.value); }
  }

  /** Without a KPI filter whatever raises c is reached from a returned child. */
  lemma GreatestIsShown(g: Graph, f: Filters, c: Vertex, o: int)
    requires IsForest(g) && c in g.data && GreatestExposed(g, f, c, Some(o))
    ensures RaiserShown(g, f, [], c, o) && exists d :: ReturnedChild(g, f, [], c, d)
  {
    var e :| Raiser(g, f, c, e, o);
    UnfilteredUnderReturned(g, f, c, e);
  }

  /** Without a KPI filter, with elements as leaves and severities on elements only, the highest
      severity shown by the query on a non-element is the one that raises it. */
  lemma HighestIsRaised(g: Graph, f: Filters, c: Vertex, s: Option<int>)
    requires IsForest(g) && ElementsAreLeaves(g) && OnlyElementsStoreSeverity(g)
    requires c in g.data && !IsElement(g.data[c]) && GreatestExposed(g, f, c, s)
    ensures HighestShown(Answer(g, f, [], c)) == s
  {
    if s.Some? { GreatestIsShown(g, f, c, s.value); }
    forall o | Displayed(g, f, [], c, o) ensures AtLeast(s, Some(o)) {
      if d :| Stray(g, f, [], c, d, o) { NoStray(g, f, [], c, d, o); }
      var e :| Raiser(g, f, c, e, o) && UnderReturned(g, f, [], c, e);
    }
    HighestShownMeans(g, f, [], c, s);
  }

  /** The recursive oracle: the entry a query returns for a non-element child agrees with the
      query on that child under the same filters, which is never empty. */
  lemma CrossQueryConsistent(g: Graph, f: Filters, s: Vertex, i: nat)
    requires IsForest(g) && s in g.data && ElementsAreLeaves(g) && OnlyElementsStoreSeverity(g)
    requires i < |Returned(g, f, [], s)| && !IsElement(Returned(g, f, [], s)[i].data)
    ensures |Answer(g, f, [], s)| == |Returned(g, f, [], s)|
    ensures var c, entry := Returned(g, f, [], s)[i].v, Answer(g, f, [], s)[i];
            && c in g.data && Answer(g, f, [], c) != []
            && (FlagAt(entry.props, "issuppressed") <==> AnySuppressed(Answer(g, f, [], c)))
            && IntAt(entry.props, "severity") == HighestShown(Answer(g, f, [], c))
  {
    EntriesAreReturned([], g.data[s].id, VisitedTree(g, f, s).kids);
    EntryOfChild(g, f, [], s, i);
    var h := Returned(g, f, [], s)[i];
    ReturnedChildren(g, f, [], s, h);
    DrillDown(g, f, [], s, h.v);
    SuppressionConsistent(g, f, [], h.v);
    var raised := ForestRaises(h.kids);
    SeverityMeansGreatestExposed(g, f, h.v, raised);
    ReportedSeverity(g, f, h.v, raised);
    HighestIsRaised(g, f, h.v, raised);
  }
}
