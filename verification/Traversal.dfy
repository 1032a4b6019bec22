/** Boost's depth-first visit as a stepping machine, and the callbacks it makes on a forest.

    `Advance` is one callback of the explicit-stack loop: the edge waiting on the top frame is
    finished first; otherwise the next out-edge is examined; otherwise the vertex is finished.
    A vertex already coloured is not entered again, its edge is finished at once. A terminated
    vertex is pushed with no out-edges.
 */
module Traversal {
  import opened Values
  import opened Graphs
  import opened Trees
  import opened Filters

  /** A visitor callback with the graph already looked up. */
  datatype Event =
    | DiscoverVertex(v: Vertex, data: Modelhierarchy)
    | FinishVertex(v: Vertex)
    | FinishEdge(source: Vertex, v: Vertex, data: Modelhierarchy)

  datatype Frame = Frame(u: Vertex, todo: seq<Vertex>, edge: Option<Vertex>)

  /** The stack has its top first; `seen` holds the vertices that are no longer white. */
  datatype Search = Search(stack: seq<Frame>, seen: set<Vertex>)

  function Open(g: Graph, f: Filters, v: Vertex): Frame
    requires v in g.data
  {
    Frame(v, if Terminates(f, g.data[v]) then [] else Children(g, v), None)
  }

  /** The state after the start vertex has been discovered. */
  function Begin(g: Graph, f: Filters, s: Vertex): Search
    requires s in g.data
  {
    Search([Open(g, f, s)], {s})
  }

  predicate FrameOk(g: Graph, fr: Frame) {
    && fr.u in g.data
    && (forall c :: c in fr.todo ==> c in g.data)
    && (fr.edge.Some? ==> fr.edge.value in g.data)
  }

  predicate StackOk(g: Graph, stack: seq<Frame>) {
    forall fr :: fr in stack ==> FrameOk(g, fr)
  }

  function Advance(g: Graph, f: Filters, d: Search): (r: (Event, Search))
    requires StackOk(g, d.stack) && d.stack != []
  {
    var top, rest := d.stack[0], d.stack[1..];
    assert top in d.stack;
    if top.edge.Some? then
      (FinishEdge(top.u, top.edge.value, g.data[top.edge.value]), d.(stack := [top.(edge := None)] + rest))
    else if top.todo != [] then
      var c := top.todo[0];
      if c in d.seen then
        (FinishEdge(top.u, c, g.data[c]), d.(stack := [top.(todo := top.todo[1..])] + rest))
      else
        (DiscoverVertex(c, g.data[c]),
         Search([Open(g, f, c), Frame(top.u, top.todo[1..], Some(c))] + rest, d.seen + {c}))
    else
      (FinishVertex(top.u), d.(stack := rest))
  }

  /** The vertices on the stack, current one first. */
  function Spine(stack: seq<Frame>): seq<Vertex> {
    if stack == [] then [] else [stack[0].u] + Spine(stack[1..])
  }

  // ----- what the callbacks are on a tree ---------------------------------------------------

  ghost function Events(t: Tree): seq<Event> {
    [DiscoverVertex(t.v, t.data)] + KidEvents(t.v, t.kids) + [FinishVertex(t.v)]
  }

  ghost function KidEvents(u: Vertex, ts: Forest): seq<Event>
    decreases ts
  {
    match ts
    case Nil => []
    case Cons(h, rest) => Events(h) + [FinishEdge(u, h.v, h.data)] + KidEvents(u, rest)
  }

  /** The vertices in the order they are discovered. */
  ghost function Preorder(t: Tree): seq<Vertex> {
    [t.v] + ForestPreorder(t.kids)
  }

  ghost function ForestPreorder(ts: Forest): seq<Vertex> {
    match ts
    case Nil => []
    case Cons(h, rest) => Preorder(h) + ForestPreorder(rest)
  }

  ghost function Discovered(es: seq<Event>): seq<Vertex> {
    if es == [] then []
    else
      Discovered(es[..|es| - 1]) + if es[|es| - 1].DiscoverVertex? then [es[|es| - 1].v] else []
  }

  lemma {:induction false} DiscoveredConcat(a: seq<Event>, b: seq<Event>)
    ensures Discovered(a + b) == Discovered(a) + Discovered(b)
  {
    if b == [] {
      assert a + b == a;
    } else {
      DiscoveredConcat(a, b[..|b| - 1]);
      assert (a + b)[..|a + b| - 1] == a + b[..|b| - 1];
    }
  }

  lemma {:induction false} EventsDiscoverPreorder(t: Tree)
    ensures Discovered(Events(t)) == Preorder(t)
  {
    var first, last := [DiscoverVertex(t.v, t.data)], [FinishVertex(t.v)];
    KidEventsDiscoverPreorder(t.v, t.kids);
    DiscoveredConcat(first, KidEvents(t.v, t.kids));
    DiscoveredConcat(first + KidEvents(t.v, t.kids), last);
    assert Discovered(first) == [t.v] && Discovered(last) == [] by {
      assert first[..0] == [] && last[..0] == [];
    }
  }

  lemma {:induction false} KidEventsDiscoverPreorder(u: Vertex, ts: Forest)
    ensures Discovered(KidEvents(u, ts)) == ForestPreorder(ts)
    decreases ts
  {
    match ts
    case Nil =>
    case Cons(h, rest) =>
      var edge := [FinishEdge(u, h.v, h.data)];
      EventsDiscoverPreorder(h);
      KidEventsDiscoverPreorder(u, rest);
      DiscoveredConcat(Events(h), edge);
      DiscoveredConcat(Events(h) + edge, KidEvents(u, rest));
      assert Discovered(edge) == [] by { assert edge[..0] == []; }
  }

  lemma NoDuplicatesConcat<T>(a: seq<T>, b: seq<T>)
    requires NoDuplicates(a) && NoDuplicates(b) && Elements(a) !! Elements(b)
    ensures NoDuplicates(a + b)
  {
    forall i, j | 0 <= i < j < |a + b| ensures (a + b)[i] != (a + b)[j] {
      if i < |a| <= j {
        assert a[i] in Elements(a) && b[j - |a|] in Elements(b);
      }
    }
  }

  lemma {:induction false} PreorderMembers(t: Tree)
    ensures Elements(Preorder(t)) == Verts(t)
    ensures Distinct(t) ==> NoDuplicates(Preorder(t))
  {
    ForestPreorderMembers(t.kids);
    assert forall x :: x in Preorder(t) <==> x == t.v || x in ForestPreorder(t.kids);
    assert forall x :: x in ForestVerts(t.kids) <==> x in ForestPreorder(t.kids);
  }

  lemma {:induction false} ForestPreorderMembers(ts: Forest)
    ensures Elements(ForestPreorder(ts)) == ForestVerts(ts)
    ensures ForestDistinct(ts) ==> NoDuplicates(ForestPreorder(ts))
  {
    match ts
    case Nil =>
    case Cons(h, rest) =>
      PreorderMembers(h);
      ForestPreorderMembers(rest);
      assert forall x :: x in ForestPreorder(ts) <==> x in Preorder(h) || x in ForestPreorder(rest);
      assert forall x :: x in Verts(h) <==> x in Preorder(h);
      assert forall x :: x in ForestVerts(rest) <==> x in ForestPreorder(rest);
      if ForestDistinct(ts) { NoDuplicatesConcat(Preorder(h), ForestPreorder(rest)); }
  }

  // ----- the machine makes those callbacks --------------------------------------------------

  ghost predicate StackInTree(g: Graph, stack: seq<Frame>) {
    && StackOk(g, stack)
    && forall fr :: fr in stack ==> AreChildren(g, fr.u, fr.todo)
  }

  ghost function FrameEvents(g: Graph, f: Filters, fr: Frame): seq<Event>
    requires IsForest(g) && FrameOk(g, fr) && AreChildren(g, fr.u, fr.todo)
  {
    (if fr.edge.Some? then [FinishEdge(fr.u, fr.edge.value, g.data[fr.edge.value])] else [])
    + KidEvents(fr.u, PrunedForest(f, ForestOf(g, fr.u, fr.todo))) + [FinishVertex(fr.u)]
  }

  /** The callbacks still to be made. */
  ghost function Pending(g: Graph, f: Filters, stack: seq<Frame>): seq<Event>
    requires IsForest(g) && StackInTree(g, stack)
  {
    if stack == [] then []
    else
      assert stack[0] in stack;
      FrameEvents(g, f, stack[0]) + Pending(g, f, stack[1..])
  }

  /** `done` has been called back so far; together with what is pending it is the whole visit. */
  ghost predicate Going(g: Graph, f: Filters, s: Vertex, d: Search, done: seq<Event>)
    requires IsForest(g) && s in g.data
  {
    && StackInTree(g, d.stack)
    && done + Pending(g, f, d.stack) == Events(VisitedTree(g, f, s))
    && d.seen == Elements(Discovered(done))
  }

  lemma BeginGoing(g: Graph, f: Filters, s: Vertex)
    requires IsForest(g) && s in g.data
    ensures Going(g, f, s, Begin(g, f, s), [DiscoverVertex(s, g.data[s])])
  {
    ChildrenFacts(g, s);
    var d := Begin(g, f, s);
    var first := [DiscoverVertex(s, g.data[s])];
    OpenPending(g, f, s);
    assert d.stack[1..] == [];
    assert first + Pending(g, f, d.stack) == Events(VisitedTree(g, f, s));
    assert Discovered(first) == [s] by { assert first[..0] == []; }
  }

  lemma OpenPending(g: Graph, f: Filters, v: Vertex)
    requires IsForest(g) && v in g.data
    ensures FrameOk(g, Open(g, f, v)) && AreChildren(g, v, Open(g, f, v).todo)
    ensures [DiscoverVertex(v, g.data[v])] + FrameEvents(g, f, Open(g, f, v)) == Events(VisitedTree(g, f, v))
  {
    ChildrenFacts(g, v);
    var t := VisitedTree(g, f, v);
    OpenKids(g, f, v);
    assert Events(t) == [DiscoverVertex(v, g.data[v])] + (KidEvents(t.v, t.kids) + [FinishVertex(t.v)]);
  }

  lemma OpenKids(g: Graph, f: Filters, v: Vertex)
    requires IsForest(g) && v in g.data && AreChildren(g, v, Open(g, f, v).todo)
    ensures PrunedForest(f, ForestOf(g, v, Open(g, f, v).todo)) == VisitedTree(g, f, v).kids
  {
    if Terminates(f, g.data[v]) { assert ForestOf(g, v, []) == Nil; }
  }

  /** When every child still to be examined is white, one step makes the next pending callback. */
  lemma AdvancePending(g: Graph, f: Filters, d: Search)
    requires IsForest(g) && StackInTree(g, d.stack) && d.stack != []
    requires d.stack[0].edge.None? && d.stack[0].todo != [] ==> d.stack[0].todo[0] !in d.seen
    ensures StackInTree(g, Advance(g, f, d).1.stack)
    ensures Pending(g, f, d.stack) == [Advance(g, f, d).0] + Pending(g, f, Advance(g, f, d).1.stack)
  {
    var top, rest := d.stack[0], d.stack[1..];
    assert top in d.stack;
    assert Pending(g, f, d.stack) == FrameEvents(g, f, top) + Pending(g, f, rest);
    if top.edge.Some? {
      var back := top.(edge := None);
      PushPending(g, f, back, rest);
      assert FrameEvents(g, f, top) == [Advance(g, f, d).0] + FrameEvents(g, f, back);
    } else if top.todo != [] {
      AdvanceIntoChild(g, f, d);
    } else {
      assert FrameEvents(g, f, top) == [Advance(g, f, d).0];
    }
  }

  lemma Regroup<T>(a: seq<T>, b: seq<T>, c: seq<T>, d: seq<T>)
    ensures a + b + c + d == a + (b + (c + d))
  {
  }

  lemma AdvanceIntoChild(g: Graph, f: Filters, d: Search)
    requires IsForest(g) && StackInTree(g, d.stack) && d.stack != []
    requires d.stack[0].edge.None? && d.stack[0].todo != [] && d.stack[0].todo[0] !in d.seen
    requires FrameOk(g, d.stack[0])
    ensures StackInTree(g, Advance(g, f, d).1.stack)
    ensures Pending(g, f, d.stack) == [Advance(g, f, d).0] + Pending(g, f, Advance(g, f, d).1.stack)
  {
    var top, rest := d.stack[0], d.stack[1..];
    assert top in d.stack;
    var c := top.todo[0];
    assert Edge(top.u, c) in g.edges;
    EnterPending(g, f, top);
    var open, back := Open(g, f, c), Frame(top.u, top.todo[1..], Some(c));
    PushPending(g, f, back, rest);
    PushPending(g, f, open, [back] + rest);
    assert [open] + ([back] + rest) == [open, back] + rest;
    Regroup([Advance(g, f, d).0], FrameEvents(g, f, open), FrameEvents(g, f, back), Pending(g, f, rest));
  }

  lemma PushPending(g: Graph, f: Filters, fr: Frame, rest: seq<Frame>)
    requires IsForest(g) && StackInTree(g, rest) && FrameOk(g, fr) && AreChildren(g, fr.u, fr.todo)
    ensures StackInTree(g, [fr] + rest)
    ensures Pending(g, f, [fr] + rest) == FrameEvents(g, f, fr) + Pending(g, f, rest)
  {
    assert ([fr] + rest)[1..] == rest;
  }

  lemma EnterPending(g: Graph, f: Filters, top: Frame)
    requires IsForest(g) && FrameOk(g, top) && AreChildren(g, top.u, top.todo)
    requires top.edge.None? && top.todo != []
    ensures var c := top.todo[0];
            var back := Frame(top.u, top.todo[1..], Some(c));
            && FrameOk(g, back) && AreChildren(g, back.u, back.todo)
            && FrameOk(g, Open(g, f, c)) && AreChildren(g, c, Open(g, f, c).todo)
            && FrameEvents(g, f, top)
               == [DiscoverVertex(c, g.data[c])] + FrameEvents(g, f, Open(g, f, c)) + FrameEvents(g, f, back)
  {
    var c := top.todo[0];
    assert Edge(top.u, c) in g.edges;
    OpenPending(g, f, c);
    var later := KidEvents(top.u, PrunedForest(f, ForestOf(g, top.u, top.todo[1..])));
    var edge := [FinishEdge(top.u, c, g.data[c])];
    assert FrameEvents(g, f, top) == Events(VisitedTree(g, f, c)) + edge + later + [FinishVertex(top.u)];
  }

  /** One step of a visit that is under way: on a forest the next child is always white, so the
      machine makes exactly the next callback of the tree it visits. */
  lemma AdvanceGoing(g: Graph, f: Filters, s: Vertex, d: Search, done: seq<Event>)
    requires IsForest(g) && s in g.data && Going(g, f, s, d, done) && d.stack != []
    ensures Going(g, f, s, Advance(g, f, d).1, done + [Advance(g, f, d).0])
    ensures |Pending(g, f, Advance(g, f, d).1.stack)| < |Pending(g, f, d.stack)|
  {
    var top := d.stack[0];
    assert top in d.stack;
    if top.edge.None? && top.todo != [] { NextIsWhite(g, f, s, d, done); }
    AdvancePending(g, f, d);
    AdvanceSeen(g, f, d);
    var (e, d') := Advance(g, f, d);
    DiscoveredNext(done, e);
    NextEvent(done, e, Pending(g, f, d'.stack), Pending(g, f, d.stack));
  }

  lemma AdvanceSeen(g: Graph, f: Filters, d: Search)
    requires StackOk(g, d.stack) && d.stack != []
    ensures var (e, d') := Advance(g, f, d);
            d'.seen == d.seen + if e.DiscoverVertex? then {e.v} else {}
  {
  }

  lemma NextEvent(done: seq<Event>, e: Event, later: seq<Event>, pending: seq<Event>)
    requires pending == [e] + later
    ensures done + [e] + later == done + pending && |later| < |pending|
  {
  }

  lemma DiscoveredNext(done: seq<Event>, e: Event)
    ensures Discovered(done + [e]) == Discovered(done) + if e.DiscoverVertex? then [e.v] else []
    ensures Elements(Discovered(done + [e])) == Elements(Discovered(done)) + if e.DiscoverVertex? then {e.v} else {}
  {
    assert (done + [e])[..|done|] == done;
  }

  /** On a forest the colour test never finds a vertex already coloured. */
  lemma NextIsWhite(g: Graph, f: Filters, s: Vertex, d: Search, done: seq<Event>)
    requires IsForest(g) && s in g.data && Going(g, f, s, d, done) && d.stack != []
    requires d.stack[0].edge.None? && d.stack[0].todo != []
    ensures d.stack[0].todo[0] !in d.seen
  {
    var top := d.stack[0];
    assert top in d.stack;
    var c := top.todo[0];
    assert Edge(top.u, c) in g.edges;
    var whole := VisitedTree(g, f, s);
    var after := Pending(g, f, d.stack);
    assert after[0] == DiscoverVertex(c, g.data[c]) by {
      assert Events(VisitedTree(g, f, c))[0] == DiscoverVertex(c, g.data[c]);
    }
    assert after == [after[0]] + after[1..];
    DiscoveredConcat([after[0]], after[1..]);
    assert Discovered([after[0]]) == [c] by { assert [after[0]][..0] == []; }
    DiscoveredConcat(done, after);
    EventsDiscoverPreorder(whole);
    TreeDistinct(g, s);
    PrunedVerts(f, TreeOf(g, s));
    PreorderMembers(whole);
    var before := Discovered(done);
    assert Preorder(whole)[|before|] == c;
    assert forall i :: 0 <= i < |before| ==> Preorder(whole)[i] == before[i];
  }
}
