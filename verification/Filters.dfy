/** The prune predicate of the `nodes` query, and the tree it leaves to be visited. */
module Filters {
  import opened Values
  import opened Graphs
  import opened Trees

  datatype Filters = Filters(level1: seq<string>, owners: seq<string>, classes: seq<string>)

  const NO_FILTERS := Filters([], [], [])

  function GetFilterSettings(command: Node): Filters {
    Filters(StringsAt(command, "l1filter"),
            StringsAt(command, "modelownerfilter"),
            StringsAt(command, "modelclassfilter"))
  }

  /** An empty list and a missing property let everything through; a null property fails a filter. */
  predicate ListAllows(allowed: seq<string>, n: Node, key: string) {
    allowed == [] || key !in n || (n[key].StrV? && n[key].s in allowed)
  }

  predicate StringOrNull(n: Node, key: string) {
    key in n ==> n[key].StrV? || n[key].NoneV?
  }

  /** The terminator does not throw: there is a level, and what it goes on to read has the type
      it reads it at. */
  predicate CanJudge(f: Filters, d: Modelhierarchy) {
    var n := d.properties;
    && "levelno" in n && n["levelno"].IntV?
    && (|| (f.level1 != [] && n["levelno"] == IntV(1))
        || (&& ("type" in n ==> n["type"].StrV?)
            && (|| ("type" in n && n["type"] != StrV("model"))
                || (&& (f.owners != [] ==> StringOrNull(n, "modelowner"))
                    && (f.classes != [] ==> StringOrNull(n, "modelclass"))))))
  }

  /** The terminator throws exactly when there is no integer level, or when it goes on, which a
      level-1 vertex under a level-1 list spares it, to a type that is no string, or to an owner
      or class that is neither string nor null, under a list for it and on what may be a model. */
  lemma CannotJudge(f: Filters, d: Modelhierarchy)
    ensures var n := d.properties;
            var spared := f.level1 != [] && "levelno" in n && n["levelno"] == IntV(1);
            var typed := "type" in n && exists s :: n["type"] == StrV(s);
            var other := typed && n["type"] != StrV("model");
            !CanJudge(f, d) <==>
              || "levelno" !in n || (forall i :: n["levelno"] != IntV(i))
              || (!spared && "type" in n && !typed)
              || (!spared && !other && f.owners != [] && "modelowner" in n
                  && n["modelowner"] != NoneV && forall s :: n["modelowner"] != StrV(s))
              || (!spared && !other && f.classes != [] && "modelclass" in n
                  && n["modelclass"] != NoneV && forall s :: n["modelclass"] != StrV(s))
  {
    var n := d.properties;
    if "levelno" in n && n["levelno"].IntV? { assert n["levelno"] == IntV(n["levelno"].i); }
    if "type" in n && n["type"].StrV? { assert n["type"] == StrV(n["type"].s); }
    if "modelowner" in n && n["modelowner"].StrV? { assert n["modelowner"] == StrV(n["modelowner"].s); }
    if "modelclass" in n && n["modelclass"].StrV? { assert n["modelclass"] == StrV(n["modelclass"].s); }
  }

  /** Each list is read under its own key. */
  lemma SettingsMean(command: Node, l: seq<string>)
    ensures var f := GetFilterSettings(command);
            && ("l1filter" in command && command["l1filter"] == StrsV(l) ==> f.level1 == l)
            && ("modelownerfilter" in command && command["modelownerfilter"] == StrsV(l) ==> f.owners == l)
            && ("modelclassfilter" in command && command["modelclassfilter"] == StrsV(l) ==> f.classes == l)
    ensures "l1filter" !in command && "modelownerfilter" !in command && "modelclassfilter" !in command ==>
              GetFilterSettings(command) == NO_FILTERS
  {
  }

  /** True when the traversal must not look below the vertex. */
  predicate Terminates(f: Filters, d: Modelhierarchy) {
    var n := d.properties;
    if IntAt(n, "levelno") == Some(1) && f.level1 != [] then d.id !in f.level1
    else if "type" in n && n["type"] != StrV("model") then false
    else !(ListAllows(f.owners, n, "modelowner") && ListAllows(f.classes, n, "modelclass"))
  }

  /** An active filter on a property that the vertex has, with no listed string as its value. */
  ghost predicate Refuses(allowed: seq<string>, n: Node, key: string) {
    allowed != [] && key in n && forall x :: x in allowed ==> n[key] != StrV(x)
  }

  /** The owner and class lists stop only models, or vertices without a type, whose owner or
      class is present and refused. A null owner or class is refused. */
  ghost predicate ListsStop(f: Filters, d: Modelhierarchy) {
    var n := d.properties;
    && ("type" in n ==> n["type"] == StrV("model"))
    && (Refuses(f.owners, n, "modelowner") || Refuses(f.classes, n, "modelclass"))
  }

  /** Which vertices stop the traversal: under a level-1 filter a level-1 vertex that is not
      listed, whatever it is; elsewhere those the other lists stop. */
  lemma TerminatesExactly(f: Filters, d: Modelhierarchy)
    ensures Terminates(f, d) <==>
              if f.level1 != [] && IntAt(d.properties, "levelno") == Some(1) then d.id !in f.level1
              else ListsStop(f, d)
  {
    RefusesMeansNotAllowed(f.owners, d.properties, "modelowner");
    RefusesMeansNotAllowed(f.classes, d.properties, "modelclass");
  }

  lemma RefusesMeansNotAllowed(allowed: seq<string>, n: Node, key: string)
    ensures Refuses(allowed, n, key) <==> !ListAllows(allowed, n, key)
  {
    if Refuses(allowed, n, key) && n[key].StrV? {
      assert n[key] == StrV(n[key].s);
    }
  }

  /** The visited part of a tree: a terminated vertex is kept, what lies below it is not. */
  ghost function Pruned(f: Filters, t: Tree): (r: Tree)
    ensures r.v == t.v && r.data == t.data
  {
    Node(t.v, t.data, if Terminates(f, t.data) then Nil else PrunedForest(f, t.kids))
  }

  ghost function PrunedForest(f: Filters, ts: Forest): Forest {
    match ts
    case Nil => Nil
    case Cons(h, rest) => Cons(Pruned(f, h), PrunedForest(f, rest))
  }

  ghost function VisitedTree(g: Graph, f: Filters, s: Vertex): Tree
    requires IsForest(g) && s in g.data
  {
    Pruned(f, TreeOf(g, s))
  }

  /** Climbing from x reaches s, and no vertex met after x is rejected: the naive path filter. */
  ghost predicate ClearPath(g: Graph, f: Filters, s: Vertex, x: Vertex)
    requires IsForest(g)
    decreases x
  {
    && x in g.data
    && (x == s
        || (var p := Parent(g, x);
            p.Some? && p.value in g.data && !Terminates(f, g.data[p.value]) && ClearPath(g, f, s, p.value)))
  }

  lemma {:induction false} ClearPathBounds(g: Graph, f: Filters, s: Vertex, x: Vertex)
    requires IsForest(g) && ClearPath(g, f, s, x)
    ensures s <= x && s in g.data
    decreases x
  {
    if x != s { ClearPathBounds(g, f, s, Parent(g, x).value); }
  }

  lemma {:induction false} ClearPathTransitive(g: Graph, f: Filters, s: Vertex, c: Vertex, x: Vertex)
    requires IsForest(g) && ClearPath(g, f, s, c) && ClearPath(g, f, c, x)
    ensures ClearPath(g, f, s, x)
    decreases x
  {
    if x != c { ClearPathTransitive(g, f, s, c, Parent(g, x).value); }
  }

  /** Nothing is pruned when no filter is given. */
  lemma {:induction false} NoFiltersPruneNothing(t: Tree)
    ensures Pruned(NO_FILTERS, t) == t
  {
    NoFiltersPruneNoForest(t.kids);
  }

  lemma {:induction false} NoFiltersPruneNoForest(ts: Forest)
    ensures PrunedForest(NO_FILTERS, ts) == ts
  {
    match ts
    case Nil =>
    case Cons(h, rest) => NoFiltersPruneNothing(h); NoFiltersPruneNoForest(rest);
  }

  lemma {:induction false} PrunedVerts(f: Filters, t: Tree)
    ensures Verts(Pruned(f, t)) <= Verts(t)
    ensures Distinct(t) ==> Distinct(Pruned(f, t))
  {
    PrunedForestVerts(f, t.kids);
  }

  lemma {:induction false} PrunedForestVerts(f: Filters, ts: Forest)
    ensures ForestVerts(PrunedForest(f, ts)) <= ForestVerts(ts)
    ensures ForestDistinct(ts) ==> ForestDistinct(PrunedForest(f, ts))
  {
    match ts
    case Nil =>
    case Cons(h, rest) => PrunedVerts(f, h); PrunedForestVerts(f, rest);
  }

  // ----- the pruned traversal visits exactly the vertices with a clear path ----------------

  lemma {:induction false} VisitedSound(g: Graph, f: Filters, s: Vertex, x: Vertex)
    requires IsForest(g) && s in g.data && x in Verts(VisitedTree(g, f, s))
    ensures ClearPath(g, f, s, x)
    decreases g.next - s, |Children(g, s)| + 1
  {
    if x != s {
      ChildrenFacts(g, s);
      var c := VisitedForestSound(g, f, s, Children(g, s), x);
      ClearPathTransitive(g, f, s, c, x);
    }
  }

  lemma {:induction false} VisitedForestSound(g: Graph, f: Filters, u: Vertex, cs: seq<Vertex>, x: Vertex)
    returns (c: Vertex)
    requires IsForest(g) && AreChildren(g, u, cs)
    requires x in ForestVerts(PrunedForest(f, ForestOf(g, u, cs)))
    ensures c in cs && ClearPath(g, f, c, x)
    decreases g.next - u, |cs|
  {
    assert cs[0] in cs && Edge(u, cs[0]) in g.edges;
    if x in Verts(VisitedTree(g, f, cs[0])) {
      c := cs[0];
      VisitedSound(g, f, c, x);
    } else {
      c := VisitedForestSound(g, f, u, cs[1..], x);
    }
  }

  lemma {:induction false} VisitedForestHolds(g: Graph, f: Filters, u: Vertex, cs: seq<Vertex>, c: Vertex, x: Vertex)
    requires IsForest(g) && AreChildren(g, u, cs)
    requires c in cs && c in g.data && x in Verts(VisitedTree(g, f, c))
    ensures x in ForestVerts(PrunedForest(f, ForestOf(g, u, cs)))
  {
    if cs[0] != c { VisitedForestHolds(g, f, u, cs[1..], c, x); }
  }

  lemma {:induction false} VisitedClosed(g: Graph, f: Filters, s: Vertex, p: Vertex, x: Vertex)
    requires IsForest(g) && s in g.data && p in Verts(VisitedTree(g, f, s))
    requires Edge(p, x) in g.edges && !Terminates(f, g.data[p])
    ensures x in Verts(VisitedTree(g, f, s))
    decreases g.next - s, |Children(g, s)| + 1
  {
    ChildrenFacts(g, s);
    if p == s {
      VisitedForestHolds(g, f, s, Children(g, s), x, x);
    } else {
      VisitedForestClosed(g, f, s, Children(g, s), p, x);
    }
  }

  lemma {:induction false} VisitedForestClosed(g: Graph, f: Filters, u: Vertex, cs: seq<Vertex>, p: Vertex, x: Vertex)
    requires IsForest(g) && AreChildren(g, u, cs)
    requires p in ForestVerts(PrunedForest(f, ForestOf(g, u, cs)))
    requires Edge(p, x) in g.edges && !Terminates(f, g.data[p])
    ensures x in ForestVerts(PrunedForest(f, ForestOf(g, u, cs)))
    decreases g.next - u, |cs|
  {
    assert cs[0] in cs && Edge(u, cs[0]) in g.edges;
    if p in Verts(VisitedTree(g, f, cs[0])) {
      VisitedClosed(g, f, cs[0], p, x);
    } else {
      VisitedForestClosed(g, f, u, cs[1..], p, x);
    }
  }

  lemma {:induction false} VisitedComplete(g: Graph, f: Filters, s: Vertex, x: Vertex)
    requires IsForest(g) && s in g.data && ClearPath(g, f, s, x)
    ensures x in Verts(VisitedTree(g, f, s))
    decreases x
  {
    if x != s {
      VisitedComplete(g, f, s, Parent(g, x).value);
      VisitedClosed(g, f, s, Parent(g, x).value, x);
    }
  }

  /** Pruning refines the path filter: a vertex is visited from s if and only if s is at or
      above it and the terminator accepts every proper ancestor up to and including s. */
  lemma PruningIsPathFilter(g: Graph, f: Filters, s: Vertex, x: Vertex)
    requires IsForest(g) && s in g.data
    ensures x in Verts(VisitedTree(g, f, s)) <==> ClearPath(g, f, s, x)
  {
    if x in Verts(VisitedTree(g, f, s)) { VisitedSound(g, f, s, x); }
    if ClearPath(g, f, s, x) { VisitedComplete(g, f, s, x); }
  }
}
