/** What the `nodes` query means: each result as a recursive reading of the visited tree. */
module Aggregates {
  import opened Values
  import opened Graphs
  import opened Trees
  import opened Visitor

  /** A passing element lies at t or below it. */
  ghost predicate HasPassing(kpis: seq<string>, t: Tree) {
    IsPassing(kpis, t.data) || ForestHasPassing(kpis, t.kids)
  }

  ghost predicate ForestHasPassing(kpis: seq<string>, ts: Forest) {
    match ts
    case Nil => false
    case Cons(h, rest) => HasPassing(kpis, h) || ForestHasPassing(kpis, rest)
  }

  ghost function ValidIn(kpis: seq<string>, t: Tree): set<Vertex> {
    (if HasPassing(kpis, t) then {t.v} else {}) + ForestValidIn(kpis, t.kids)
  }

  ghost function ForestValidIn(kpis: seq<string>, ts: Forest): set<Vertex> {
    match ts
    case Nil => {}
    case Cons(h, rest) => ValidIn(kpis, h) + ForestValidIn(kpis, rest)
  }

  /** The parents of the passing elements at t or below it; t itself hangs from `parent`. */
  ghost function ModelsIn(kpis: seq<string>, parent: Vertex, t: Tree): set<Vertex>
    decreases t
  {
    (if IsPassing(kpis, t.data) then {parent} else {}) + ForestModelsIn(kpis, t.v, t.kids)
  }

  ghost function ForestModelsIn(kpis: seq<string>, parent: Vertex, ts: Forest): set<Vertex>
    decreases ts
  {
    match ts
    case Nil => {}
    case Cons(h, rest) => ModelsIn(kpis, parent, h) + ForestModelsIn(kpis, parent, rest)
  }

  predicate OwnSuppressed(d: Modelhierarchy) {
    FlagAt(d.properties, "issuppressed")
  }

  function OwnSeverity(d: Modelhierarchy): Option<int> {
    IntAt(d.properties, "severity")
  }

  lemma OwnMarksMean(d: Modelhierarchy)
    ensures var n := d.properties;
            && (OwnSuppressed(d) <==> "issuppressed" in n && n["issuppressed"] == BoolV(true))
            && forall i :: OwnSeverity(d) == Some(i) <==> "severity" in n && n["severity"] == IntV(i)
  {
    LookupsMean(d.properties, "issuppressed");
    LookupsMean(d.properties, "severity");
  }

  /** What t contributes to its parent: an element its own flag, any other vertex its aggregate. */
  ghost predicate Suppresses(t: Tree) {
    if IsElement(t.data) then OwnSuppressed(t.data) else ForestSuppresses(t.kids)
  }

  ghost predicate ForestSuppresses(ts: Forest) {
    match ts
    case Nil => false
    case Cons(h, rest) => Suppresses(h) || ForestSuppresses(rest)
  }

  ghost function Raises(t: Tree): Option<int> {
    if IsElement(t.data) then OwnSeverity(t.data) else ForestRaises(t.kids)
  }

  ghost function ForestRaises(ts: Forest): Option<int> {
    match ts
    case Nil => None
    case Cons(h, rest) => Higher(Raises(h), ForestRaises(rest))
  }

  /** Whether t ends up marked suppressed, once its own edge has been finished. */
  ghost predicate MarkedSuppressed(t: Tree) {
    ForestSuppresses(t.kids) || (IsElement(t.data) && OwnSuppressed(t.data))
  }

  /** The severity t ends up with, once its own edge has been finished. */
  ghost function MarkedSeverity(t: Tree): Option<int> {
    if IsElement(t.data) && OwnSeverity(t.data).Some? then OwnSeverity(t.data) else ForestRaises(t.kids)
  }

  /** The marks inside t before the edge into t is finished, then with it. */
  ghost function SuppressedIn(t: Tree): set<Vertex> {
    (if ForestSuppresses(t.kids) then {t.v} else {}) + ForestSuppressedIn(t.kids)
  }

  ghost function ForestSuppressedIn(ts: Forest): set<Vertex> {
    match ts
    case Nil => {}
    case Cons(h, rest) =>
      (if MarkedSuppressed(h) then {h.v} else {}) + ForestSuppressedIn(h.kids) + ForestSuppressedIn(rest)
  }

  ghost function Mark(v: Vertex, s: Option<int>): map<Vertex, int> {
    if s.Some? then map[v := s.value] else map[]
  }

  ghost function SeverityIn(t: Tree): map<Vertex, int> {
    ForestSeverityIn(t.kids) + Mark(t.v, ForestRaises(t.kids))
  }

  ghost function ForestSeverityIn(ts: Forest): map<Vertex, int> {
    match ts
    case Nil => map[]
    case Cons(h, rest) =>
      ForestSeverityIn(h.kids) + Mark(h.v, MarkedSeverity(h)) + ForestSeverityIn(rest)
  }

  /** Each vertex of the forest has its own access level, or none. */
  ghost function ForestAccessIn(ts: Forest): map<Vertex, string> {
    match ts
    case Nil => map[]
    case Cons(h, rest) =>
      ForestAccessIn(h.kids) + OwnAccess(h) + ForestAccessIn(rest)
  }

  ghost function OwnAccess(t: Tree): map<Vertex, string> {
    match StringAt(t.data.properties, "dataaccesslevel")
    case Some(level) => map[t.v := level]
    case None => map[]
  }

  // ----- these readings stay inside the tree ------------------------------------------------

  lemma {:induction false} ValidInside(kpis: seq<string>, ts: Forest)
    ensures ForestValidIn(kpis, ts) <= ForestVerts(ts)
  {
    match ts
    case Nil =>
    case Cons(h, rest) => ValidInside(kpis, h.kids); ValidInside(kpis, rest);
  }

  lemma {:induction false} MarksInside(ts: Forest)
    ensures ForestSuppressedIn(ts) <= ForestVerts(ts)
    ensures ForestSeverityIn(ts).Keys <= ForestVerts(ts)
    ensures ForestAccessIn(ts).Keys <= ForestVerts(ts)
  {
    match ts
    case Nil =>
    case Cons(h, rest) => MarksInside(h.kids); MarksInside(rest);
  }

  // ----- the readings of a forest at one vertex ---------------------------------------------

  /** At its first top a forest reads what that subtree reads. */
  lemma HeadSets(kpis: seq<string>, h: Tree, rest: Forest)
    requires ForestDistinct(Cons(h, rest))
    ensures var ts := Cons(h, rest);
            && (h.v in ForestValidIn(kpis, ts) <==> HasPassing(kpis, h))
            && (h.v in ForestSuppressedIn(ts) <==> MarkedSuppressed(h))
  {
    ValidInside(kpis, h.kids);
    ValidInside(kpis, rest);
    MarksInside(h.kids);
    MarksInside(rest);
    assert h.v !in ForestVerts(h.kids) && h.v !in ForestVerts(rest);
    assert ForestValidIn(kpis, Cons(h, rest)) == ValidIn(kpis, h) + ForestValidIn(kpis, rest);
  }

  lemma HeadMaps(h: Tree, rest: Forest)
    requires ForestDistinct(Cons(h, rest))
    ensures var ts := Cons(h, rest); var own := StringAt(h.data.properties, "dataaccesslevel");
            && SeverityAt(ForestSeverityIn(ts), h.v) == MarkedSeverity(h)
            && (h.v in ForestAccessIn(ts) <==> own.Some?)
            && (h.v in ForestAccessIn(ts) ==> own == Some(ForestAccessIn(ts)[h.v]))
  {
    MarksInside(h.kids);
    MarksInside(rest);
    assert h.v !in ForestVerts(h.kids) && h.v !in ForestVerts(rest);
  }

  /** Elsewhere in the first subtree it reads what lies below that top. */
  lemma BelowReadings(kpis: seq<string>, h: Tree, rest: Forest, x: Vertex)
    requires x != h.v && x !in ForestVerts(rest)
    ensures SameReadings(kpis, Cons(h, rest), h.kids, x)
  {
    ValidInside(kpis, rest);
    MarksInside(rest);
    assert ForestValidIn(kpis, Cons(h, rest)) == ValidIn(kpis, h) + ForestValidIn(kpis, rest);
  }

  /** Outside the first subtree it reads what the rest reads. */
  lemma LaterReadings(kpis: seq<string>, h: Tree, rest: Forest, x: Vertex)
    requires x !in Verts(h)
    ensures SameReadings(kpis, Cons(h, rest), rest, x)
  {
    ValidInside(kpis, h.kids);
    MarksInside(h.kids);
    assert ForestValidIn(kpis, Cons(h, rest)) == ValidIn(kpis, h) + ForestValidIn(kpis, rest);
  }

  ghost predicate SameReadings(kpis: seq<string>, ts: Forest, ts': Forest, x: Vertex) {
    && (x in ForestValidIn(kpis, ts) <==> x in ForestValidIn(kpis, ts'))
    && (x in ForestSuppressedIn(ts) <==> x in ForestSuppressedIn(ts'))
    && SeverityAt(ForestSeverityIn(ts), x) == SeverityAt(ForestSeverityIn(ts'), x)
    && (x in ForestAccessIn(ts) <==> x in ForestAccessIn(ts'))
    && (x in ForestAccessIn(ts) ==> ForestAccessIn(ts)[x] == ForestAccessIn(ts')[x])
  }
}
