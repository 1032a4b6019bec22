/** One traversal with the visitor computes the recursive readings of the visited tree. */
module OnePass {
  import opened Values
  import opened Graphs
  import opened Trees
  import opened Traversal
  import opened Visitor
  import opened Aggregates

  /** The callbacks of a tree, nested the way the tree is. */
  ghost function Visit(kpis: seq<string>, m: Marks, t: Tree): Marks
    decreases t
  {
    OnFinishVertex(VisitKids(kpis, OnDiscover(kpis, m, t.v, t.data), t.v, t.kids))
  }

  ghost function VisitKids(kpis: seq<string>, m: Marks, u: Vertex, ts: Forest): Marks
    decreases ts
  {
    match ts
    case Nil => m
    case Cons(h, rest) => VisitKids(kpis, OnFinishEdge(Visit(kpis, m, h), u, h.v, h.data), u, rest)
  }

  lemma {:induction false} RunConcat(kpis: seq<string>, m: Marks, a: seq<Event>, b: seq<Event>)
    ensures Run(kpis, m, a + b) == Run(kpis, Run(kpis, m, a), b)
  {
    if b == [] {
      assert a + b == a;
    } else {
      RunConcat(kpis, m, a, b[..|b| - 1]);
      assert (a + b)[..|a + b| - 1] == a + b[..|b| - 1];
    }
  }

  lemma RunOne(kpis: seq<string>, m: Marks, e: Event)
    ensures Run(kpis, m, [e]) == Callback(kpis, m, e)
  {
    assert [e][..0] == [];
  }

  lemma {:induction false} RunIsVisit(kpis: seq<string>, m: Marks, t: Tree)
    ensures Run(kpis, m, Events(t)) == Visit(kpis, m, t)
    decreases t
  {
    var first, last := DiscoverVertex(t.v, t.data), FinishVertex(t.v);
    RunOne(kpis, m, first);
    RunConcat(kpis, m, [first], KidEvents(t.v, t.kids));
    RunIsVisitKids(kpis, OnDiscover(kpis, m, t.v, t.data), t.v, t.kids);
    RunConcat(kpis, m, [first] + KidEvents(t.v, t.kids), [last]);
    RunOne(kpis, VisitKids(kpis, OnDiscover(kpis, m, t.v, t.data), t.v, t.kids), last);
  }

  lemma {:induction false} RunIsVisitKids(kpis: seq<string>, m: Marks, u: Vertex, ts: Forest)
    ensures Run(kpis, m, KidEvents(u, ts)) == VisitKids(kpis, m, u, ts)
    decreases ts
  {
    match ts
    case Nil =>
    case Cons(h, rest) =>
      var edge := FinishEdge(u, h.v, h.data);
      RunIsVisit(kpis, m, h);
      RunConcat(kpis, m, Events(h), [edge]);
      RunOne(kpis, Visit(kpis, m, h), edge);
      var m' := OnFinishEdge(Visit(kpis, m, h), u, h.v, h.data);
      RunConcat(kpis, m, Events(h) + [edge], KidEvents(u, rest));
      RunIsVisitKids(kpis, m', u, rest);
  }

  // ----- valid vertices ---------------------------------------------------------------------

  /** Whatever is marked on the path has everything above it marked. */
  ghost predicate ClosedUpward(valid: set<Vertex>, path: seq<Vertex>) {
    forall i, j :: 0 <= i < j < |path| && path[i] in valid ==> path[j] in valid
  }

  /** On a set closed upward, stopping at the first marked vertex loses nothing. */
  lemma {:induction false} EarlyBreakLosesNothing(valid: set<Vertex>, path: seq<Vertex>)
    requires ClosedUpward(valid, path) && NoDuplicates(path)
    ensures MarkPath(valid, path) == valid + Elements(path)
    decreases |path|
  {
    if path == [] {
    } else if path[0] in valid {
      assert forall j :: 0 <= j < |path| ==> path[j] in valid;
    } else {
      assert path == [path[0]] + path[1..];
      EarlyBreakLosesNothing(valid + {path[0]}, path[1..]);
    }
  }

  /** The traversal may enter t: nothing in it is on the path or marked valid. */
  ghost predicate Enterable(m: Marks, vs: set<Vertex>) {
    && NoDuplicates(m.path) && Elements(m.path) !! vs
    && m.valid !! vs && ClosedUpward(m.valid, m.path)
  }

  lemma DiscoverMarks(kpis: seq<string>, m: Marks, t: Tree)
    requires Enterable(m, Verts(t)) && Distinct(t)
    ensures var m' := OnDiscover(kpis, m, t.v, t.data);
            && m'.path == [t.v] + m.path
            && m'.valid == m.valid + (if IsPassing(kpis, t.data) then {t.v} + Elements(m.path) else {})
            && Enterable(m', ForestVerts(t.kids))
  {
    var path := [t.v] + m.path;
    assert t.v !in m.path by { assert t.v !in Elements(m.path); }
    assert Elements(path) == {t.v} + Elements(m.path);
    EarlyBreakLosesNothing(m.valid, path);
  }

  lemma {:induction false} VisitMarksValid(kpis: seq<string>, m: Marks, t: Tree)
    requires Enterable(m, Verts(t)) && Distinct(t)
    ensures var m' := Visit(kpis, m, t);
            && m'.path == m.path
            && m'.valid == m.valid + ValidIn(kpis, t) + (if HasPassing(kpis, t) then Elements(m.path) else {})
    decreases t
  {
    var m1 := OnDiscover(kpis, m, t.v, t.data);
    DiscoverMarks(kpis, m, t);
    VisitKidsMarksValid(kpis, m1, t.v, t.kids);
    assert Elements(m1.path) == {t.v} + Elements(m.path);
  }

  lemma {:induction false} VisitKidsMarksValid(kpis: seq<string>, m: Marks, u: Vertex, ts: Forest)
    requires Enterable(m, ForestVerts(ts)) && ForestDistinct(ts)
    ensures var m' := VisitKids(kpis, m, u, ts);
            && m'.path == m.path
            && m'.valid
               == m.valid + ForestValidIn(kpis, ts) + (if ForestHasPassing(kpis, ts) then Elements(m.path) else {})
    decreases ts
  {
    match ts
    case Nil =>
    case Cons(h, rest) =>
      VisitMarksValid(kpis, m, h);
      ValidInside(kpis, Cons(h, Nil));
      var m1 := OnFinishEdge(Visit(kpis, m, h), u, h.v, h.data);
      VisitKidsMarksValid(kpis, m1, u, rest);
  }

  // ----- models under the second level ------------------------------------------------------

  /** Below a path of at least one vertex, every passing element files its parent under the
      same key: the vertex just below the start of the traversal. */
  function SecondLevel(path: seq<Vertex>): Vertex
    requires |path| >= 2
  {
    path[|path| - 2]
  }

  ghost predicate ModelsAdded(before: map<Vertex, set<Vertex>>, after: map<Vertex, set<Vertex>>,
                              key: Vertex, added: set<Vertex>) {
    forall k :: ModelsAt(after, k) == ModelsAt(before, k) + if k == key then added else {}
  }

  lemma {:induction false} VisitFilesModels(kpis: seq<string>, m: Marks, t: Tree)
    requires m.path != []
    ensures Visit(kpis, m, t).path == m.path
    ensures ModelsAdded(m.models, Visit(kpis, m, t).models, SecondLevel([t.v] + m.path),
                        ModelsIn(kpis, m.path[0], t))
    decreases t
  {
    VisitKidsFilesModels(kpis, OnDiscover(kpis, m, t.v, t.data), t.v, t.kids);
  }

  lemma {:induction false} VisitKidsFilesModels(kpis: seq<string>, m: Marks, u: Vertex, ts: Forest)
    requires |m.path| >= 2 && m.path[0] == u
    ensures VisitKids(kpis, m, u, ts).path == m.path
    ensures ModelsAdded(m.models, VisitKids(kpis, m, u, ts).models, SecondLevel(m.path),
                        ForestModelsIn(kpis, u, ts))
    decreases ts
  {
    match ts
    case Nil =>
    case Cons(h, rest) =>
      VisitFilesModels(kpis, m, h);
      assert SecondLevel([h.v] + m.path) == SecondLevel(m.path);
      VisitKidsFilesModels(kpis, OnFinishEdge(Visit(kpis, m, h), u, h.v, h.data), u, rest);
  }

  /** At the start vertex itself each child opens its own key. */
  ghost predicate FiledPerChild(kpis: seq<string>, before: map<Vertex, set<Vertex>>,
                                after: map<Vertex, set<Vertex>>, s: Vertex, ts: Forest) {
    && (forall k :: k !in Roots(ts) ==> ModelsAt(after, k) == ModelsAt(before, k))
    && ChildKeys(kpis, before, after, s, ts)
  }

  ghost function Roots(ts: Forest): set<Vertex> {
    match ts
    case Nil => {}
    case Cons(h, rest) => {h.v} + Roots(rest)
  }

  ghost predicate ChildKeys(kpis: seq<string>, before: map<Vertex, set<Vertex>>,
                            after: map<Vertex, set<Vertex>>, s: Vertex, ts: Forest) {
    match ts
    case Nil => true
    case Cons(h, rest) =>
      && ModelsAt(after, h.v) == ModelsAt(before, h.v) + ModelsIn(kpis, s, h)
      && ChildKeys(kpis, before, after, s, rest)
  }

  lemma {:induction false} ChildKeysFrame(kpis: seq<string>, b: map<Vertex, set<Vertex>>, b': map<Vertex, set<Vertex>>,
                                          a: map<Vertex, set<Vertex>>, s: Vertex, ts: Forest)
    requires ChildKeys(kpis, b, a, s, ts)
    requires forall k :: k in Roots(ts) ==> ModelsAt(b, k) == ModelsAt(b', k)
    ensures ChildKeys(kpis, b', a, s, ts)
  {
    match ts
    case Nil =>
    case Cons(_, rest) => ChildKeysFrame(kpis, b, b', a, s, rest);
  }

  lemma {:induction false} RootsInside(ts: Forest)
    ensures Roots(ts) <= ForestVerts(ts)
  {
    match ts
    case Nil =>
    case Cons(_, rest) => RootsInside(rest);
  }

  lemma {:induction false} StartKidsFileModels(kpis: seq<string>, m: Marks, s: Vertex, ts: Forest)
    requires m.path == [s] && ForestDistinct(ts)
    ensures FiledPerChild(kpis, m.models, VisitKids(kpis, m, s, ts).models, s, ts)
    decreases ts
  {
    match ts
    case Nil =>
    case Cons(h, rest) =>
      VisitFilesModels(kpis, m, h);
      RootsInside(rest);
      var m1 := OnFinishEdge(Visit(kpis, m, h), s, h.v, h.data);
      StartKidsFileModels(kpis, m1, s, rest);
      ChildKeysFrame(kpis, m1.models, m.models, VisitKids(kpis, m, s, ts).models, s, rest);
  }

  // ----- suppression, severity, access level ------------------------------------------------

  lemma {:induction false} VisitSuppresses(kpis: seq<string>, m: Marks, t: Tree)
    requires Distinct(t) && m.suppressed !! Verts(t)
    ensures Visit(kpis, m, t).suppressed == m.suppressed + SuppressedIn(t)
    decreases t
  {
    VisitKidsSuppresses(kpis, OnDiscover(kpis, m, t.v, t.data), t.v, t.kids);
  }

  lemma {:induction false} VisitKidsSuppresses(kpis: seq<string>, m: Marks, u: Vertex, ts: Forest)
    requires ForestDistinct(ts) && u !in ForestVerts(ts) && m.suppressed !! ForestVerts(ts)
    ensures VisitKids(kpis, m, u, ts).suppressed
         == m.suppressed + ForestSuppressedIn(ts) + (if ForestSuppresses(ts) then {u} else {})
    decreases ts
  {
    match ts
    case Nil =>
    case Cons(h, rest) =>
      VisitSuppresses(kpis, m, h);
      MarksInside(h.kids);
      VisitKidsSuppresses(kpis, OnFinishEdge(Visit(kpis, m, h), u, h.v, h.data), u, rest);
  }

  /** The severity container on its own. */
  ghost function KidsSeverity(severity: map<Vertex, int>, u: Vertex, ts: Forest): map<Vertex, int>
    decreases ts
  {
    match ts
    case Nil => severity
    case Cons(h, rest) =>
      KidsSeverity(SeverityAfter(KidsSeverity(severity, h.v, h.kids), u, h.v, h.data), u, rest)
  }

  lemma {:induction false} SeverityAlone(kpis: seq<string>, m: Marks, u: Vertex, ts: Forest)
    ensures VisitKids(kpis, m, u, ts).severity == KidsSeverity(m.severity, u, ts)
    decreases ts
  {
    match ts
    case Nil =>
    case Cons(h, rest) =>
      SeverityAlone(kpis, OnDiscover(kpis, m, h.v, h.data), h.v, h.kids);
      SeverityAlone(kpis, OnFinishEdge(Visit(kpis, m, h), u, h.v, h.data), u, rest);
  }

  lemma MapAssociative<T>(a: map<Vertex, T>, b: map<Vertex, T>, c: map<Vertex, T>, d: map<Vertex, T>)
    ensures a + b + c + d == a + (b + c + d)
  {
  }

  lemma RaiseTwice(a: map<Vertex, int>, b: map<Vertex, int>, u: Vertex, first: Option<int>, second: Option<int>)
    requires u !in b
    ensures Raise(Raise(a, u, first) + b, u, second) == Raise(a + b, u, Higher(first, second))
  {
    var both := a + b;
    assert SeverityAt(both, u) == SeverityAt(a, u);
    var left := Raise(a, u, first) + b;
    assert SeverityAt(left, u) == Higher(SeverityAt(a, u), first);
    assert left == Raise(both, u, first);
  }

  /** The edge into h: what was raised on h below it becomes its final mark, and moves up. */
  lemma FinishRaises(base: map<Vertex, int>, u: Vertex, h: Tree)
    requires u != h.v && h.v !in base
    ensures SeverityAfter(Raise(base, h.v, ForestRaises(h.kids)), u, h.v, h.data)
         == Raise(base + Mark(h.v, MarkedSeverity(h)), u, Raises(h))
  {
    assert base + map[] == base;
  }

  lemma {:induction false} KidsSeverityIs(severity: map<Vertex, int>, u: Vertex, ts: Forest)
    requires ForestDistinct(ts) && u !in ForestVerts(ts) && severity.Keys !! ForestVerts(ts)
    ensures KidsSeverity(severity, u, ts) == Raise(severity + ForestSeverityIn(ts), u, ForestRaises(ts))
    decreases ts
  {
    match ts
    case Nil =>
      assert severity + map[] == severity;
    case Cons(h, rest) =>
      KidsSeverityIs(severity, h.v, h.kids);
      MarksInside(h.kids);
      MarksInside(rest);
      var below := severity + ForestSeverityIn(h.kids);
      FinishRaises(below, u, h);
      var a := below + Mark(h.v, MarkedSeverity(h));
      assert a.Keys <= severity.Keys + Verts(h);
      KidsSeverityIs(Raise(a, u, Raises(h)), u, rest);
      RaiseTwice(a, ForestSeverityIn(rest), u, Raises(h), ForestRaises(rest));
      MapAssociative(severity, ForestSeverityIn(h.kids), Mark(h.v, MarkedSeverity(h)), ForestSeverityIn(rest));
  }

  /** The access levels on their own. */
  ghost function KidsAccess(access: map<Vertex, string>, u: Vertex, ts: Forest): map<Vertex, string>
    decreases ts
  {
    match ts
    case Nil => access
    case Cons(h, rest) =>
      KidsAccess(AccessAfter(KidsAccess(access, h.v, h.kids), u, h.v, h.data), u, rest)
  }

  lemma {:induction false} AccessAlone(kpis: seq<string>, m: Marks, u: Vertex, ts: Forest)
    ensures VisitKids(kpis, m, u, ts).access == KidsAccess(m.access, u, ts)
    decreases ts
  {
    match ts
    case Nil =>
    case Cons(h, rest) =>
      AccessAlone(kpis, OnDiscover(kpis, m, h.v, h.data), h.v, h.kids);
      AccessAlone(kpis, OnFinishEdge(Visit(kpis, m, h), u, h.v, h.data), u, rest);
  }

  lemma FinishKeepsOwn(access: map<Vertex, string>, u: Vertex, h: Tree)
    requires u !in access
    ensures AccessAfter(access, u, h.v, h.data) == access + OwnAccess(h)
  {
    assert access + map[] == access;
  }

  /** The inheriting branch never fires: when an edge is finished its source has no access
      level recorded yet, because the edge into the source finishes later. */
  lemma {:induction false} KidsAccessIs(access: map<Vertex, string>, u: Vertex, ts: Forest)
    requires ForestDistinct(ts) && u !in ForestVerts(ts) && access.Keys !! ({u} + ForestVerts(ts))
    ensures KidsAccess(access, u, ts) == access + ForestAccessIn(ts)
    decreases ts
  {
    match ts
    case Nil =>
      assert access + map[] == access;
    case Cons(h, rest) =>
      KidsAccessIs(access, h.v, h.kids);
      MarksInside(h.kids);
      var below := access + ForestAccessIn(h.kids);
      var own := OwnAccess(h);
      assert below.Keys <= access.Keys + ForestVerts(h.kids);
      FinishKeepsOwn(below, u, h);
      KidsAccessIs(below + own, u, rest);
      MapAssociative(access, ForestAccessIn(h.kids), own, ForestAccessIn(rest));
  }

  // ----- the whole traversal ----------------------------------------------------------------

  /** What the visitor holds when the visit of t is over, each container read off the tree. */
  lemma OnePassIsRecursive(kpis: seq<string>, t: Tree)
    requires Distinct(t) && !IsPassing(kpis, t.data)
    ensures var m := Run(kpis, NO_MARKS, Events(t));
            && m.path == []
            && m.valid == ValidIn(kpis, t)
            && FiledPerChild(kpis, map[], m.models, t.v, t.kids)
            && m.suppressed == SuppressedIn(t)
            && m.severity == SeverityIn(t)
            && m.access == ForestAccessIn(t.kids)
  {
    RunIsVisit(kpis, NO_MARKS, t);
    VisitMarksValid(kpis, NO_MARKS, t);
    VisitSuppresses(kpis, NO_MARKS, t);
    var m := OnDiscover(kpis, NO_MARKS, t.v, t.data);
    StartKidsFileModels(kpis, m, t.v, t.kids);
    SeverityAlone(kpis, m, t.v, t.kids);
    AccessAlone(kpis, m, t.v, t.kids);
    StartSeverity(t);
    StartAccess(t);
  }

  lemma StartSeverity(t: Tree)
    requires Distinct(t)
    ensures KidsSeverity(map[], t.v, t.kids) == SeverityIn(t)
  {
    var below := ForestSeverityIn(t.kids);
    KidsSeverityIs(map[], t.v, t.kids);
    MarksInside(t.kids);
    EmptyPlus(below);
    RaiseAbsent(below, t.v, ForestRaises(t.kids));
  }

  lemma EmptyPlus<T>(a: map<Vertex, T>)
    ensures map[] + a == a
  {
  }

  lemma RaiseAbsent(a: map<Vertex, int>, v: Vertex, s: Option<int>)
    requires v !in a
    ensures Raise(a, v, s) == a + Mark(v, s)
  {
  }

  lemma StartAccess(t: Tree)
    requires Distinct(t)
    ensures KidsAccess(map[], t.v, t.kids) == ForestAccessIn(t.kids)
  {
    KidsAccessIs(map[], t.v, t.kids);
    EmptyPlus(ForestAccessIn(t.kids));
  }
}
