/** The `nodes` command: a pruned traversal from a vertex, projected onto its children. */
module NodesQuery {
  import opened Values
  import opened Graphs
  import opened Trees
  import opened Filters
  import opened Traversal
  import opened Visitor
  import opened Aggregates
  import opened OnePass
  import opened Hierarchy

  // ----- what is returned -------------------------------------------------------------------

  /** A returned child: its dictionary without `model_ids`, and the ids listed there. */
  datatype Child = Child(props: Node, models: set<string>)

  /** The ids of the parents of the passing elements at t or below it. */
  ghost function ModelIds(kpis: seq<string>, parent: string, t: Tree): set<string>
    decreases t
  {
    (if IsPassing(kpis, t.data) then {parent} else {}) + ForestModelIds(kpis, t.data.id, t.kids)
  }

  ghost function ForestModelIds(kpis: seq<string>, parent: string, ts: Forest): set<string>
    decreases ts
  {
    match ts
    case Nil => {}
    case Cons(h, rest) => ModelIds(kpis, parent, h) + ForestModelIds(kpis, parent, rest)
  }

  /** The computed fields win over stored ones; a severity is written only when there is one. */
  function WithMarks(n: Node, suppressed: bool, severity: Option<int>): Node {
    var n1 := n["issuppressed" := BoolV(suppressed)];
    if severity.Some? then n1["severity" := IntV(severity.value)] else n1
  }

  ghost function ChildOf(kpis: seq<string>, parent: string, t: Tree): Child {
    Child(WithMarks(t.data.properties, MarkedSuppressed(t), MarkedSeverity(t)), ModelIds(kpis, parent, t))
  }

  ghost function ChildrenOf(kpis: seq<string>, parent: string, ts: Forest): seq<Child> {
    match ts
    case Nil => []
    case Cons(h, rest) =>
      (if HasPassing(kpis, h) then [ChildOf(kpis, parent, h)] else []) + ChildrenOf(kpis, parent, rest)
  }

  /** The answer to `nodes` from vertex s, read off the visited tree. */
  ghost function Answer(g: Graph, f: Filters, kpis: seq<string>, s: Vertex): seq<Child>
    requires IsForest(g) && s in g.data
  {
    TreeAnswer(kpis, VisitedTree(g, f, s))
  }

  ghost function TreeAnswer(kpis: seq<string>, t: Tree): seq<Child> {
    ChildrenOf(kpis, t.data.id, t.kids)
  }

  /** A dictionary shows a child when it lists each model id once, in whatever order the
      vertices happen to be stored, and is otherwise that child's dictionary. */
  ghost predicate Shows(n: Node, c: Child) {
    && "model_ids" in n && n["model_ids"].StrsV?
    && NoDuplicates(n["model_ids"].strs)
    && Elements(n["model_ids"].strs) == c.models
    && n == c.props["model_ids" := n["model_ids"]]
  }

  ghost predicate ShowsAll(reply: seq<Node>, cs: seq<Child>) {
    |reply| == |cs| && forall i :: 0 <= i < |cs| ==> Shows(reply[i], cs[i])
  }

  ghost function ReturnedOf(kpis: seq<string>, ts: Forest): seq<Tree> {
    match ts
    case Nil => []
    case Cons(h, rest) => (if HasPassing(kpis, h) then [h] else []) + ReturnedOf(kpis, rest)
  }

  /** The subtrees whose tops the query on s returns, in order. */
  ghost function Returned(g: Graph, f: Filters, kpis: seq<string>, s: Vertex): seq<Tree>
    requires IsForest(g) && s in g.data
  {
    ReturnedOf(kpis, VisitedTree(g, f, s).kids)
  }

  lemma {:induction false} EntriesAreReturned(kpis: seq<string>, parent: string, ts: Forest)
    ensures |ChildrenOf(kpis, parent, ts)| == |ReturnedOf(kpis, ts)|
    ensures forall i :: 0 <= i < |ReturnedOf(kpis, ts)| ==>
              ChildrenOf(kpis, parent, ts)[i] == ChildOf(kpis, parent, ReturnedOf(kpis, ts)[i])
  {
    match ts
    case Nil =>
    case Cons(h, rest) => EntriesAreReturned(kpis, parent, rest);
  }

  /** What a shown dictionary is made of: every stored entry under its key, except for the model
      ids, the flag, which is the computed one, and the severity, which is the computed one where
      there is one. */
  ghost predicate Dressed(shown: Node, stored: Node, suppressed: bool, severity: Option<int>) {
    && (forall key :: key != "issuppressed" && key != "severity" && key != "model_ids" ==>
          (key in shown <==> key in stored) && (key in stored ==> shown[key] == stored[key]))
    && "issuppressed" in shown && shown["issuppressed"] == BoolV(suppressed)
    && (if severity.Some? then "severity" in shown && shown["severity"] == IntV(severity.value)
        else ("severity" in shown <==> "severity" in stored)
             && ("severity" in stored ==> shown["severity"] == stored["severity"]))
  }

  lemma MarksDress(n: Node, suppressed: bool, severity: Option<int>)
    ensures Dressed(WithMarks(n, suppressed, severity), n, suppressed, severity)
  {
  }

  lemma ShownIsDressed(shown: Node, c: Child, stored: Node, suppressed: bool, severity: Option<int>)
    requires Shows(shown, c) && Dressed(c.props, stored, suppressed, severity)
    ensures Dressed(shown, stored, suppressed, severity)
  {
  }

  /** The i-th dictionary dresses what is stored on the top of the i-th subtree. */
  ghost predicate DressedAll(g: Graph, reply: seq<Node>, ts: seq<Tree>) {
    && |reply| == |ts|
    && forall i :: 0 <= i < |ts| ==>
         ts[i].v in g.data
         && Dressed(reply[i], g.data[ts[i].v].properties, MarkedSuppressed(ts[i]), MarkedSeverity(ts[i]))
  }

  lemma {:induction false} ReturnedLabelled(g: Graph, kpis: seq<string>, ts: Forest)
    requires ForestLabelled(g, ts)
    ensures forall h :: h in ReturnedOf(kpis, ts) ==> Labelled(g, h)
  {
    match ts
    case Nil =>
    case Cons(_, rest) => ReturnedLabelled(g, kpis, rest);
  }

  lemma RepliesAreDressed(g: Graph, f: Filters, kpis: seq<string>, s: Vertex, reply: seq<Node>)
    requires IsForest(g) && s in g.data && ShowsAll(reply, Answer(g, f, kpis, s))
    ensures DressedAll(g, reply, Returned(g, f, kpis, s))
  {
    var ts := Returned(g, f, kpis, s);
    EntriesAreReturned(kpis, g.data[s].id, VisitedTree(g, f, s).kids);
    VisitedLabelled(g, f, s);
    ReturnedLabelled(g, kpis, VisitedTree(g, f, s).kids);
    forall i | 0 <= i < |ts|
      ensures ts[i].v in g.data
      ensures Dressed(reply[i], g.data[ts[i].v].properties, MarkedSuppressed(ts[i]), MarkedSeverity(ts[i]))
    {
      assert ts[i] in ts;
      MarksDress(ts[i].data.properties, MarkedSuppressed(ts[i]), MarkedSeverity(ts[i]));
      ShownIsDressed(reply[i], Answer(g, f, kpis, s)[i], ts[i].data.properties,
                     MarkedSuppressed(ts[i]), MarkedSeverity(ts[i]));
    }
  }

  // ----- what the command can read ----------------------------------------------------------

  /** `parentId` is a string, or null for the root; anything else throws. */
  predicate ParentReadable(command: Node) {
    "parentId" in command && (command["parentId"].NoneV? || command["parentId"].StrV?)
  }

  /** A string parent id is that of an indexed vertex. */
  ghost predicate ParentKnown(st: State, command: Node) {
    ParentReadable(command) && (command["parentId"].StrV? ==> command["parentId"].s in st.index)
  }

  lemma ParentMeans(st: State, command: Node)
    ensures ParentReadable(command) <==>
              "parentId" in command && (command["parentId"] == NoneV || exists id :: command["parentId"] == StrV(id))
    ensures ParentKnown(st, command) <==>
              "parentId" in command
              && (command["parentId"] == NoneV || exists id :: command["parentId"] == StrV(id) && id in st.index)
  {
    if "parentId" in command && command["parentId"].StrV? { assert command["parentId"] == StrV(command["parentId"].s); }
  }

  /** The start is the live vertex bearing the requested id, the root for a null one. */
  function StartOf(st: State, command: Node): (s: Vertex)
    requires Valid(st) && ParentKnown(st, command) && st.root.Some?
    ensures s in st.graph.data
    ensures st.graph.data[s].id == if command["parentId"].StrV? then command["parentId"].s else "root"
  {
    if command["parentId"].NoneV? then st.root.value else st.index[command["parentId"].s]
  }

  /** No visited vertex makes a callback or the terminator throw; the edge into the start is not
      part of the visit. */
  ghost predicate Readable(g: Graph, f: Filters, s: Vertex)
    requires IsForest(g) && s in g.data
  {
    forall v :: v in g.data && ClearPath(g, f, s, v) ==>
      CanDiscover(g.data[v]) && CanJudge(f, g.data[v]) && (v != s ==> CanFinishEdge(g.data[v]))
  }

  /** The query is answered, and the start is not itself a passing element. */
  ghost predicate Traversable(g: Graph, f: Filters, kpis: seq<string>, s: Vertex)
    requires IsForest(g) && s in g.data
  {
    Readable(g, f, s) && !IsPassing(kpis, g.data[s])
  }

  /** A callback that throws, or is followed by a terminator that does. */
  predicate Throws(f: Filters, e: Event) {
    match e
    case DiscoverVertex(_, d) => !CanDiscover(d) || !CanJudge(f, d)
    case FinishVertex(_) => false
    case FinishEdge(_, _, d) => !CanFinishEdge(d)
  }

  /** Besides the terminator, an element flag that is no boolean throws, and on the edge into a
      vertex an access level that is no string, and on an element a flag or severity of the wrong
      type. */
  lemma CannotFinish(d: Modelhierarchy)
    ensures var n := d.properties;
            var flagged := "is_modelelement" in n && n["is_modelelement"] == BoolV(true);
            var unflagged := "is_modelelement" in n ==> n["is_modelelement"] == BoolV(false);
            && (!CanDiscover(d) <==> !flagged && !unflagged)
            && (!CanFinishEdge(d) <==>
                  || (!flagged && !unflagged)
                  || ("dataaccesslevel" in n && forall s :: n["dataaccesslevel"] != StrV(s))
                  || (flagged && "issuppressed" in n && forall b :: n["issuppressed"] != BoolV(b))
                  || (flagged && "severity" in n && forall i :: n["severity"] != IntV(i)))
  {
    var n := d.properties;
    if "is_modelelement" in n && n["is_modelelement"].BoolV? {
      assert n["is_modelelement"] == BoolV(n["is_modelelement"].b);
    }
    if "dataaccesslevel" in n && n["dataaccesslevel"].StrV? {
      assert n["dataaccesslevel"] == StrV(n["dataaccesslevel"].s);
    }
    if "issuppressed" in n && n["issuppressed"].BoolV? { assert n["issuppressed"] == BoolV(n["issuppressed"].b); }
    if "severity" in n && n["severity"].IntV? { assert n["severity"] == IntV(n["severity"].i); }
  }

  ghost predicate TreeReadable(f: Filters, t: Tree) {
    CanDiscover(t.data) && CanJudge(f, t.data) && ForestReadable(f, t.kids)
  }

  ghost predicate ForestReadable(f: Filters, ts: Forest) {
    match ts
    case Nil => true
    case Cons(h, rest) => TreeReadable(f, h) && CanFinishEdge(h.data) && ForestReadable(f, rest)
  }

  lemma {:induction false} ReadableEvents(f: Filters, t: Tree)
    ensures TreeReadable(f, t) <==> forall e :: e in Events(t) ==> !Throws(f, e)
    decreases t
  {
    ForestReadableEvents(f, t.v, t.kids);
    var first, last := DiscoverVertex(t.v, t.data), FinishVertex(t.v);
    forall e ensures e in Events(t) <==> e == first || e == last || e in KidEvents(t.v, t.kids) {}
    assert first in Events(t);
  }

  lemma {:induction false} ForestReadableEvents(f: Filters, u: Vertex, ts: Forest)
    ensures ForestReadable(f, ts) <==> forall e :: e in KidEvents(u, ts) ==> !Throws(f, e)
    decreases ts
  {
    match ts
    case Nil =>
    case Cons(h, rest) =>
      var edge := FinishEdge(u, h.v, h.data);
      ReadableEvents(f, h);
      ForestReadableEvents(f, u, rest);
      forall e ensures e in KidEvents(u, ts) <==> e in Events(h) || e == edge || e in KidEvents(u, rest) {}
      assert edge in KidEvents(u, ts);
  }

  lemma {:induction false} ReadableVertices(g: Graph, f: Filters, t: Tree)
    requires Labelled(g, t)
    ensures TreeReadable(f, t) <==>
              && CanDiscover(t.data) && CanJudge(f, t.data)
              && forall v :: v in ForestVerts(t.kids) ==>
                   v in g.data && CanDiscover(g.data[v]) && CanJudge(f, g.data[v]) && CanFinishEdge(g.data[v])
  {
    ForestReadableVertices(g, f, t.kids);
  }

  lemma {:induction false} ForestReadableVertices(g: Graph, f: Filters, ts: Forest)
    requires ForestLabelled(g, ts)
    ensures ForestReadable(f, ts) <==>
              forall v :: v in ForestVerts(ts) ==>
                v in g.data && CanDiscover(g.data[v]) && CanJudge(f, g.data[v]) && CanFinishEdge(g.data[v])
  {
    match ts
    case Nil =>
    case Cons(h, rest) => ReadableVertices(g, f, h); ForestReadableVertices(g, f, rest);
  }

  /** The visit is readable exactly when its tree is. */
  lemma ReadableTree(g: Graph, f: Filters, s: Vertex)
    requires IsForest(g) && s in g.data
    ensures Readable(g, f, s) <==> TreeReadable(f, VisitedTree(g, f, s))
  {
    var t := VisitedTree(g, f, s);
    VisitedLabelled(g, f, s);
    ReadableVertices(g, f, t);
    TreeDistinct(g, s);
    PrunedVerts(f, TreeOf(g, s));
    forall v ensures v == s || v in ForestVerts(t.kids) <==> ClearPath(g, f, s, v) { PruningIsPathFilter(g, f, s, v); }
  }

  // ----- the traversal ----------------------------------------------------------------------

  lemma {:induction false} EventInTree(t: Tree, e: Event)
    requires e in Events(t)
    ensures e.v in Verts(t)
    decreases t
  {
    if e != DiscoverVertex(t.v, t.data) && e != FinishVertex(t.v) { KidEventInForest(t.v, t.kids, e); }
  }

  lemma {:induction false} KidEventInForest(u: Vertex, ts: Forest, e: Event)
    requires e in KidEvents(u, ts)
    ensures e.v in ForestVerts(ts)
    decreases ts
  {
    match ts
    case Cons(h, rest) =>
      if e in Events(h) { EventInTree(h, e); }
      else if e != FinishEdge(u, h.v, h.data) { KidEventInForest(u, rest, e); }
  }

  /** The next callback concerns a visited vertex. */
  lemma NextIsVisited(g: Graph, f: Filters, s: Vertex, d: Search, done: seq<Event>)
    requires IsForest(g) && s in g.data && Going(g, f, s, d, done) && d.stack != []
    ensures var e := Advance(g, f, d).0;
            && e in Events(VisitedTree(g, f, s))
            && e.v in g.data && ClearPath(g, f, s, e.v) && (!e.FinishVertex? ==> e.data == g.data[e.v])
  {
    var e := Advance(g, f, d).0;
    assert d.stack[0] in d.stack;
    AdvanceGoing(g, f, s, d, done);
    assert (done + [e])[|done|] == e;
    assert e in Events(VisitedTree(g, f, s));
    EventInTree(VisitedTree(g, f, s), e);
    PruningIsPathFilter(g, f, s, e.v);
  }

  lemma SpineSteps(g: Graph, f: Filters, d: Search, path: seq<Vertex>)
    requires StackOk(g, d.stack) && d.stack != [] && path == Spine(d.stack)
    ensures path != [] && path[0] == d.stack[0].u
    ensures var (e, d') := Advance(g, f, d);
            Spine(d'.stack) == match e
                               case DiscoverVertex(v, _) => [v] + path
                               case FinishVertex(_) => path[1..]
                               case FinishEdge(_, _, _) => path
  {
    var top, rest := d.stack[0], d.stack[1..];
    assert top in d.stack;
    var d' := Advance(g, f, d).1;
    if top.edge.Some? {
      assert d'.stack[1..] == rest;
    } else if top.todo != [] {
      if top.todo[0] in d.seen {
        assert d'.stack[1..] == rest;
      } else {
        assert d'.stack[1..][1..] == rest;
      }
    }
  }

  /** The path climbs: it ends in the start vertex, and each entry is followed by its parent. */
  ghost predicate Climbs(g: Graph, s: Vertex, path: seq<Vertex>) {
    path != [] ==>
      && path[|path| - 1] == s
      && forall i :: 0 <= i < |path| - 1 ==> Parent(g, path[i]) == Some(path[i + 1])
  }

  /** Every callback keeps the path a climb, so the entry in front of the last one is the child
      of the start, and the second entry the parent of the vertex just discovered. */
  lemma PathClimbs(g: Graph, f: Filters, s: Vertex, d: Search, path: seq<Vertex>)
    requires IsForest(g) && StackInTree(g, d.stack) && d.stack != []
    requires path == Spine(d.stack) && Climbs(g, s, path)
    ensures Climbs(g, s, Spine(Advance(g, f, d).1.stack))
  {
    SpineSteps(g, f, d, path);
    var top, e := d.stack[0], Advance(g, f, d).0;
    assert top in d.stack;
    match e
    case DiscoverVertex(v, _) =>
      SourceUnique(g.edges, top.u, v);
      var longer := [v] + path;
      forall i | 0 <= i < |longer| - 1 ensures Parent(g, longer[i]) == Some(longer[i + 1]) {
        if i > 0 { assert longer[i] == path[i - 1] && longer[i + 1] == path[i]; }
      }
    case FinishVertex(_) =>
    case FinishEdge(_, _, _) =>
  }

  /** `done` has been called back without throwing and left the visitor as it is; its path is the
      stack seen from the top. */
  ghost predicate Visiting(g: Graph, f: Filters, kpis: seq<string>, s: Vertex, d: Search, done: seq<Event>, m: Marks)
    requires IsForest(g) && s in g.data
  {
    && Going(g, f, s, d, done)
    && m == Run(kpis, NO_MARKS, done)
    && m.path == Spine(d.stack) && Climbs(g, s, m.path)
    && forall e :: e in done ==> !Throws(f, e)
  }

  lemma VisitStarts(g: Graph, f: Filters, kpis: seq<string>, s: Vertex)
    requires IsForest(g) && s in g.data
    ensures var e := DiscoverVertex(s, g.data[s]);
            if Throws(f, e) then !Readable(g, f, s)
            else Visiting(g, f, kpis, s, Begin(g, f, s), [e], OnDiscover(kpis, NO_MARKS, s, g.data[s]))
  {
    var e := DiscoverVertex(s, g.data[s]);
    if Throws(f, e) {
      assert ClearPath(g, f, s, s);
    } else {
      BeginGoing(g, f, s);
      RunOne(kpis, NO_MARKS, e);
      assert Spine(Begin(g, f, s).stack) == [s] by { assert Begin(g, f, s).stack[1..] == []; }
    }
  }

  lemma VisitContinues(g: Graph, f: Filters, kpis: seq<string>, s: Vertex, d: Search, done: seq<Event>, m: Marks)
    requires IsForest(g) && s in g.data && Visiting(g, f, kpis, s, d, done, m) && d.stack != []
    ensures m.path != []
    ensures var (e, d') := Advance(g, f, d);
            && StackInTree(g, d'.stack)
            && |Pending(g, f, d'.stack)| < |Pending(g, f, d.stack)|
            && if Throws(f, e) then !Readable(g, f, s)
               else Visiting(g, f, kpis, s, d', done + [e], Callback(kpis, m, e))
  {
    AdvanceGoing(g, f, s, d, done);
    NextIsVisited(g, f, s, d, done);
    SpineSteps(g, f, d, m.path);
    PathClimbs(g, f, s, d, m.path);
    var (e, d') := Advance(g, f, d);
    if Throws(f, e) {
      ThrowIsUnreadable(g, f, s, e);
    } else {
      assert (done + [e])[..|done|] == done;
      CallbackPath(kpis, m, e);
    }
  }

  lemma ThrowIsUnreadable(g: Graph, f: Filters, s: Vertex, e: Event)
    requires IsForest(g) && s in g.data && e in Events(VisitedTree(g, f, s)) && Throws(f, e)
    ensures !Readable(g, f, s)
  {
    ReadableEvents(f, VisitedTree(g, f, s));
    ReadableTree(g, f, s);
  }

  lemma CallbackPath(kpis: seq<string>, m: Marks, e: Event)
    requires e.FinishVertex? ==> m.path != []
    ensures Callback(kpis, m, e).path == match e
                                         case DiscoverVertex(v, _) => [v] + m.path
                                         case FinishVertex(_) => m.path[1..]
                                         case FinishEdge(_, _, _) => m.path
  {
  }

  lemma VisitEnds(g: Graph, f: Filters, kpis: seq<string>, s: Vertex, d: Search, done: seq<Event>, m: Marks)
    requires IsForest(g) && s in g.data && Visiting(g, f, kpis, s, d, done, m) && d.stack == []
    ensures Readable(g, f, s) && m == Run(kpis, NO_MARKS, Events(VisitedTree(g, f, s)))
  {
    assert done + [] == done;
    ReadableEvents(f, VisitedTree(g, f, s));
    ReadableTree(g, f, s);
  }

  /** Boost's depth-first visit with this visitor. The path is the stack seen from the top, so
      whenever a vertex is discovered below the start both index expressions are in range. A throw
      ends the visit, and what the visitor holds by then is not looked at. */
  method DepthFirstVisit(g: Graph, f: Filters, s: Vertex, visitor: FilteredHierarchyVisitor) returns (thrown: bool)
    requires IsForest(g) && s in g.data && !IsPassing(visitor.kpis, g.data[s])
    requires visitor.State() == NO_MARKS
    modifies visitor
    ensures thrown <==> !Readable(g, f, s)
    ensures !thrown ==> visitor.State() == Run(visitor.kpis, NO_MARKS, Events(VisitedTree(g, f, s)))
  {
    ghost var kpis := visitor.kpis;
    VisitStarts(g, f, kpis, s);
    if Throws(f, DiscoverVertex(s, g.data[s])) {
      return true;
    }
    visitor.DiscoverVertex(s, g.data[s]);
    var d := Begin(g, f, s);
    ghost var done := [DiscoverVertex(s, g.data[s])];
    while d.stack != []
      invariant Visiting(g, f, kpis, s, d, done, visitor.State())
      decreases |Pending(g, f, d.stack)|
    {
      VisitContinues(g, f, kpis, s, d, done, visitor.State());
      var (e, next) := Advance(g, f, d);
      if Throws(f, e) {
        return true;
      }
      match e {
        case DiscoverVertex(v, data) => visitor.DiscoverVertex(v, data);
        case FinishVertex(v) => visitor.FinishVertex(v);
        case FinishEdge(u, v, data) => visitor.FinishEdge(u, v, data);
      }
      done := done + [e];
      d := next;
    }
    VisitEnds(g, f, kpis, s, d, done, visitor.State());
    thrown := false;
  }

  // ----- reading the marks off at the children ----------------------------------------------

  ghost predicate ReadsOff(kpis: seq<string>, m: Marks, s: Vertex, h: Tree) {
    && (h.v in m.valid <==> HasPassing(kpis, h))
    && ModelsAt(m.models, h.v) == ModelsIn(kpis, s, h)
    && (h.v in m.suppressed <==> MarkedSuppressed(h))
    && SeverityAt(m.severity, h.v) == MarkedSeverity(h)
    && (h.v in m.access ==> StringAt(h.data.properties, "dataaccesslevel") == Some(m.access[h.v]))
  }

  ghost predicate ForestReadsOff(kpis: seq<string>, m: Marks, s: Vertex, ts: Forest) {
    match ts
    case Nil => true
    case Cons(h, rest) => ReadsOff(kpis, m, s, h) && ForestReadsOff(kpis, m, s, rest)
  }

  /** Within the forest the marks are those of the forest. */
  ghost predicate MarksMatch(kpis: seq<string>, m: Marks, ts: Forest) {
    && (forall x :: x in ForestVerts(ts) ==> (x in m.valid <==> x in ForestValidIn(kpis, ts)))
    && (forall x :: x in ForestVerts(ts) ==> (x in m.suppressed <==> x in ForestSuppressedIn(ts)))
    && (forall x :: x in ForestVerts(ts) ==> SeverityAt(m.severity, x) == SeverityAt(ForestSeverityIn(ts), x))
    && (forall x :: x in ForestVerts(ts) ==> (x in m.access <==> x in ForestAccessIn(ts)))
    && (forall x :: x in ForestVerts(ts) && x in m.access ==> m.access[x] == ForestAccessIn(ts)[x])
  }

  lemma HeadReadsOff(kpis: seq<string>, m: Marks, s: Vertex, h: Tree, rest: Forest)
    requires ForestDistinct(Cons(h, rest)) && MarksMatch(kpis, m, Cons(h, rest))
    requires ModelsAt(m.models, h.v) == ModelsIn(kpis, s, h)
    ensures ReadsOff(kpis, m, s, h)
  {
    HeadSets(kpis, h, rest);
    HeadMaps(h, rest);
    assert h.v in ForestVerts(Cons(h, rest));
  }

  lemma TailMatches(kpis: seq<string>, m: Marks, h: Tree, rest: Forest)
    requires ForestDistinct(Cons(h, rest)) && MarksMatch(kpis, m, Cons(h, rest))
    ensures MarksMatch(kpis, m, rest)
  {
    forall x | x in ForestVerts(rest)
      ensures x in ForestVerts(Cons(h, rest)) && SameReadings(kpis, Cons(h, rest), rest, x)
    {
      LaterReadings(kpis, h, rest, x);
    }
  }

  lemma {:induction false} MarksReadOff(kpis: seq<string>, m: Marks, s: Vertex, ts: Forest)
    requires ForestDistinct(ts) && MarksMatch(kpis, m, ts) && ChildKeys(kpis, map[], m.models, s, ts)
    ensures ForestReadsOff(kpis, m, s, ts)
  {
    match ts
    case Nil =>
    case Cons(h, rest) =>
      HeadReadsOff(kpis, m, s, h, rest);
      TailMatches(kpis, m, h, rest);
      MarksReadOff(kpis, m, s, rest);
  }

  /** After the traversal every child of the start shows the readings of its own subtree. */
  lemma TraversalReadsOff(kpis: seq<string>, t: Tree)
    requires Distinct(t) && !IsPassing(kpis, t.data)
    ensures ForestReadsOff(kpis, Run(kpis, NO_MARKS, Events(t)), t.v, t.kids)
  {
    var m := Run(kpis, NO_MARKS, Events(t));
    OnePassIsRecursive(kpis, t);
    StartMatches(kpis, m, t);
    MarksReadOff(kpis, m, t.v, t.kids);
  }

  lemma StartMatches(kpis: seq<string>, m: Marks, t: Tree)
    requires t.v !in ForestVerts(t.kids)
    requires m.valid == ValidIn(kpis, t) && m.suppressed == SuppressedIn(t)
    requires m.severity == SeverityIn(t) && m.access == ForestAccessIn(t.kids)
    ensures MarksMatch(kpis, m, t.kids)
  {
    forall x | x in ForestVerts(t.kids)
      ensures x != t.v && SeverityAt(m.severity, x) == SeverityAt(ForestSeverityIn(t.kids), x)
    {
      assert x !in Mark(t.v, ForestRaises(t.kids));
    }
  }

  // ----- from vertices to ids ---------------------------------------------------------------

  /** The tree carries the data of the graph's live vertices. */
  ghost predicate Labelled(g: Graph, t: Tree) {
    t.v in g.data && t.data == g.data[t.v] && ForestLabelled(g, t.kids)
  }

  ghost predicate ForestLabelled(g: Graph, ts: Forest) {
    match ts
    case Nil => true
    case Cons(h, rest) => Labelled(g, h) && ForestLabelled(g, rest)
  }

  lemma {:induction false} VisitedLabelled(g: Graph, f: Filters, v: Vertex)
    requires IsForest(g) && v in g.data
    ensures Labelled(g, VisitedTree(g, f, v))
    decreases g.next - v, |Children(g, v)| + 1
  {
    ChildrenFacts(g, v);
    VisitedForestLabelled(g, f, v, Children(g, v));
  }

  lemma {:induction false} VisitedForestLabelled(g: Graph, f: Filters, u: Vertex, cs: seq<Vertex>)
    requires IsForest(g) && AreChildren(g, u, cs)
    ensures ForestLabelled(g, PrunedForest(f, ForestOf(g, u, cs)))
    decreases g.next - u, |cs|
  {
    if cs != [] {
      assert cs[0] in cs && Edge(u, cs[0]) in g.edges;
      VisitedLabelled(g, f, cs[0]);
      VisitedForestLabelled(g, f, u, cs[1..]);
    }
  }

  ghost function IdsOf(g: Graph, ms: set<Vertex>): set<string>
    requires forall m :: m in ms ==> m in g.data
  {
    set m | m in ms :: g.data[m].id
  }

  lemma {:induction false} ModelIdsAgree(g: Graph, kpis: seq<string>, parent: Vertex, t: Tree)
    requires Labelled(g, t) && parent in g.data
    ensures forall m :: m in ModelsIn(kpis, parent, t) ==> m in g.data
    ensures IdsOf(g, ModelsIn(kpis, parent, t)) == ModelIds(kpis, g.data[parent].id, t)
    decreases t
  {
    ForestModelIdsAgree(g, kpis, t.v, t.kids);
  }

  lemma {:induction false} ForestModelIdsAgree(g: Graph, kpis: seq<string>, parent: Vertex, ts: Forest)
    requires ForestLabelled(g, ts) && parent in g.data
    ensures forall m :: m in ForestModelsIn(kpis, parent, ts) ==> m in g.data
    ensures IdsOf(g, ForestModelsIn(kpis, parent, ts)) == ForestModelIds(kpis, g.data[parent].id, ts)
    decreases ts
  {
    match ts
    case Nil =>
    case Cons(h, rest) =>
      ModelIdsAgree(g, kpis, parent, h);
      ForestModelIdsAgree(g, kpis, parent, rest);
  }

  /** The ids of a set of vertices, in the arbitrary order the set is stored in. */
  method ListIds(g: Graph, ms: set<Vertex>) returns (ids: seq<string>)
    requires UniqueIds(g) && forall m :: m in ms ==> m in g.data
    ensures NoDuplicates(ids) && Elements(ids) == IdsOf(g, ms)
  {
    ids := [];
    var left := ms;
    while left != {}
      invariant left <= ms
      invariant NoDuplicates(ids) && Elements(ids) == IdsOf(g, ms - left)
    {
      var m :| m in left;
      assert g.data[m].id !in IdsOf(g, ms - left);
      assert forall i :: 0 <= i < |ids| ==> ids[i] in Elements(ids);
      assert IdsOf(g, ms - (left - {m})) == IdsOf(g, ms - left) + {g.data[m].id} by {
        assert ms - (left - {m}) == (ms - left) + {m};
      }
      assert Elements(ids + [g.data[m].id]) == Elements(ids) + {g.data[m].id};
      ids := ids + [g.data[m].id];
      left := left - {m};
    }
    assert ms - {} == ms;
  }

  // ----- the command ------------------------------------------------------------------------

  /** The dictionary of one returned child. */
  method ShowChild(g: Graph, visitor: FilteredHierarchyVisitor, ghost s: Vertex, c: Vertex, ghost h: Tree)
    returns (props: Node)
    requires UniqueIds(g) && s in g.data && Labelled(g, h) && h.v == c
    requires ReadsOff(visitor.kpis, visitor.State(), s, h)
    ensures Shows(props, ChildOf(visitor.kpis, g.data[s].id, h))
    ensures Dressed(props, g.data[c].properties, MarkedSuppressed(h), MarkedSeverity(h))
  {
    MarksDress(g.data[c].properties, MarkedSuppressed(h), MarkedSeverity(h));
    ModelIdsAgree(g, visitor.kpis, s, h);
    var ids := ListIds(g, ModelsAt(visitor.models, c));
    props := g.data[c].properties;
    props := props["model_ids" := StrsV(ids)];
    props := props["issuppressed" := BoolV(c in visitor.suppressed)];
    if c in visitor.severity {
      props := props["severity" := IntV(visitor.severity[c])];
    }
    ghost var before := props;
    if c in visitor.access {
      props := props["dataaccesslevel" := StrV(visitor.access[c])];
      assert props == before;
    }
    assert props == WithMarks(h.data.properties, MarkedSuppressed(h), MarkedSeverity(h))["model_ids" := StrsV(ids)];
  }

  /** Whatever throws is caught, and the command then replies with nothing. */
  method ProcessRequest(h: TagHierarchy, command: Node) returns (reply: seq<Node>)
    requires Valid(h.View())
    requires h.root.Some? && ParentReadable(command) ==>
               && ParentKnown(h.View(), command)
               && !IsPassing(StringsAt(command, "kpifilter"), h.graph.data[StartOf(h.View(), command)])
    ensures h.root.None? ==> reply == [map["error" := StrV("empty")]]
    ensures h.root.Some? && !ParentReadable(command) ==> reply == []
    ensures h.root.Some? && ParentReadable(command) ==>
              var f, s := GetFilterSettings(command), StartOf(h.View(), command);
              if Readable(h.graph, f, s) then
                && ShowsAll(reply, Answer(h.graph, f, StringsAt(command, "kpifilter"), s))
                && DressedAll(h.graph, reply, Returned(h.graph, f, StringsAt(command, "kpifilter"), s))
              else
                reply == []
  {
    if h.root.None? {
      return [map["error" := StrV("empty")]];
    }
    var g := h.graph;
    var kpis := StringsAt(command, "kpifilter");
    var visitor := new FilteredHierarchyVisitor(kpis);
    var f := GetFilterSettings(command);
    if !ParentReadable(command) {
      return [];
    }
    var s := StartOf(h.View(), command);
    var thrown := DepthFirstVisit(g, f, s, visitor);
    if thrown {
      return [];
    }
    reply := Project(g, f, s, visitor);
    RepliesAreDressed(g, f, kpis, s, reply);
  }

  /** The loop over the children of the start vertex. */
  method Project(g: Graph, ghost f: Filters, s: Vertex, visitor: FilteredHierarchyVisitor) returns (reply: seq<Node>)
    requires IsForest(g) && UniqueIds(g) && s in g.data && !IsPassing(visitor.kpis, g.data[s])
    requires visitor.State() == Run(visitor.kpis, NO_MARKS, Events(VisitedTree(g, f, s)))
    ensures ShowsAll(reply, Answer(g, f, visitor.kpis, s))
  {
    ghost var kpis, m := visitor.kpis, visitor.State();
    var cs := Children(g, s);
    reply := [];
    ghost var shown: seq<Child> := [];
    StartProjection(g, f, kpis, s);
    for i := 0 to |cs|
      invariant AreChildren(g, s, cs)
      invariant ShowsAll(reply, shown)
      invariant ToShow(g, f, kpis, m, s, cs[i..], shown)
    {
      assert cs[i..][0] == cs[i] && cs[i..][1..] == cs[i + 1..];
      assert cs[i] in cs && Edge(s, cs[i]) in g.edges;
      StepProjection(g, f, kpis, m, s, cs[i..], shown);
      if cs[i] !in visitor.valid {
        continue;
      }
      var props := ShowChild(g, visitor, s, cs[i], VisitedTree(g, f, cs[i]));
      reply := reply + [props];
      shown := shown + [ChildOf(kpis, g.data[s].id, VisitedTree(g, f, cs[i]))];
    }
  }

  /** `shown` is the answer up to the children still to be looked at. */
  ghost predicate ToShow(g: Graph, f: Filters, kpis: seq<string>, m: Marks, s: Vertex, cs: seq<Vertex>,
                         shown: seq<Child>)
    requires IsForest(g) && s in g.data && AreChildren(g, s, cs)
  {
    if Terminates(f, g.data[s]) then
      shown == Answer(g, f, kpis, s) && forall c :: c in cs ==> c !in m.valid
    else
      var rest := PrunedForest(f, ForestOf(g, s, cs));
      && ForestReadsOff(kpis, m, s, rest) && ForestLabelled(g, rest)
      && shown + ChildrenOf(kpis, g.data[s].id, rest) == Answer(g, f, kpis, s)
  }

  lemma StartProjection(g: Graph, f: Filters, kpis: seq<string>, s: Vertex)
    requires IsForest(g) && s in g.data && !IsPassing(kpis, g.data[s])
    ensures AreChildren(g, s, Children(g, s))
    ensures ToShow(g, f, kpis, Run(kpis, NO_MARKS, Events(VisitedTree(g, f, s))), s, Children(g, s), [])
  {
    VisitedTraits(g, f, kpis, s);
    var t := VisitedTree(g, f, s);
    assert [] + ChildrenOf(kpis, t.data.id, t.kids) == Answer(g, f, kpis, s);
  }

  /** A child not marked valid adds nothing to the answer; a valid one adds its own entry. */
  lemma StepProjection(g: Graph, f: Filters, kpis: seq<string>, m: Marks, s: Vertex, cs: seq<Vertex>,
                       shown: seq<Child>)
    requires IsForest(g) && s in g.data && AreChildren(g, s, cs) && cs != [] && cs[0] in g.data
    requires ToShow(g, f, kpis, m, s, cs, shown)
    ensures var h := VisitedTree(g, f, cs[0]);
            if cs[0] in m.valid then
              && Labelled(g, h) && ReadsOff(kpis, m, s, h)
              && ToShow(g, f, kpis, m, s, cs[1..], shown + [ChildOf(kpis, g.data[s].id, h)])
            else
              ToShow(g, f, kpis, m, s, cs[1..], shown)
  {
    var h := VisitedTree(g, f, cs[0]);
    if !Terminates(f, g.data[s]) {
      var rest, later := PrunedForest(f, ForestOf(g, s, cs)), PrunedForest(f, ForestOf(g, s, cs[1..]));
      assert rest == Cons(h, later);
      var after := ChildrenOf(kpis, g.data[s].id, later);
      if cs[0] in m.valid {
        var child := ChildOf(kpis, g.data[s].id, h);
        assert shown + [child] + after == shown + ([child] + after);
      } else {
        assert [] + after == after;
      }
    }
  }

  lemma VisitedTraits(g: Graph, f: Filters, kpis: seq<string>, s: Vertex)
    requires IsForest(g) && s in g.data && !IsPassing(kpis, g.data[s])
    ensures AreChildren(g, s, Children(g, s))
    ensures Labelled(g, VisitedTree(g, f, s))
    ensures var m := Run(kpis, NO_MARKS, Events(VisitedTree(g, f, s)));
            && ForestReadsOff(kpis, m, s, VisitedTree(g, f, s).kids)
            && m.valid <= Verts(VisitedTree(g, f, s))
    ensures Terminates(f, g.data[s]) ==> forall c :: c in Children(g, s) ==> c !in Verts(VisitedTree(g, f, s))
  {
    var t := VisitedTree(g, f, s);
    ChildrenFacts(g, s);
    TreeDistinct(g, s);
    PrunedVerts(f, TreeOf(g, s));
    VisitedLabelled(g, f, s);
    TraversalReadsOff(kpis, t);
    OnePassIsRecursive(kpis, t);
    ValidInside(kpis, t.kids);
  }
}
