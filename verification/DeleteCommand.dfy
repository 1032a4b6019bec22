/** The `delete` command: subtrees are collected in post-order and removed vertex by vertex. */
module DeleteCommand {
  import opened Values
  import opened Graphs
  import opened Trees
  import opened Hierarchy
  import opened Removal
  import opened DeleteProperties

  // ----- post-order -------------------------------------------------------------------------

  ghost function PostOrder(t: Tree): seq<Vertex> {
    ForestPostOrder(t.kids) + [t.v]
  }

  ghost function ForestPostOrder(ts: Forest): seq<Vertex> {
    match ts
    case Nil => []
    case Cons(h, rest) => PostOrder(h) + ForestPostOrder(rest)
  }

  lemma {:induction false} PostOrderMembers(t: Tree)
    ensures Elements(PostOrder(t)) == Verts(t)
  {
    ForestPostOrderMembers(t.kids);
    assert forall x :: x in PostOrder(t) <==> x in ForestPostOrder(t.kids) || x == t.v;
    assert forall x :: x in ForestVerts(t.kids) <==> x in ForestPostOrder(t.kids);
  }

  lemma {:induction false} ForestPostOrderMembers(ts: Forest)
    ensures Elements(ForestPostOrder(ts)) == ForestVerts(ts)
  {
    match ts
    case Nil =>
    case Cons(h, rest) =>
      PostOrderMembers(h);
      ForestPostOrderMembers(rest);
      assert forall x :: x in ForestPostOrder(ts) <==> x in PostOrder(h) || x in ForestPostOrder(rest);
      assert forall x :: x in Verts(h) <==> x in PostOrder(h);
      assert forall x :: x in ForestVerts(rest) <==> x in ForestPostOrder(rest);
  }

  lemma {:induction false} PostOrderOnce(t: Tree)
    requires Distinct(t)
    ensures NoDuplicates(PostOrder(t))
  {
    ForestPostOrderOnce(t.kids);
    ForestPostOrderMembers(t.kids);
    assert forall x :: x in ForestVerts(t.kids) <==> x in ForestPostOrder(t.kids);
  }

  lemma {:induction false} ForestPostOrderOnce(ts: Forest)
    requires ForestDistinct(ts)
    ensures NoDuplicates(ForestPostOrder(ts))
  {
    match ts
    case Nil =>
    case Cons(h, rest) =>
      PostOrderOnce(h);
      ForestPostOrderOnce(rest);
      PostOrderMembers(h);
      ForestPostOrderMembers(rest);
      assert forall x :: x in Verts(h) <==> x in PostOrder(h);
      assert forall x :: x in ForestVerts(rest) <==> x in ForestPostOrder(rest);
      forall i, j | 0 <= i < |PostOrder(h)| && 0 <= j < |ForestPostOrder(rest)|
        ensures PostOrder(h)[i] != ForestPostOrder(rest)[j]
      {
        assert PostOrder(h)[i] in Verts(h) && ForestPostOrder(rest)[j] in ForestVerts(rest);
      }
  }

  /** Whatever hangs below the i-th vertex of the list stands in front of it. */
  ghost predicate ChildrenFirst(g: Graph, post: seq<Vertex>) {
    forall i, e :: 0 <= i < |post| && e in g.edges && e.source == post[i] ==> e.target in post[..i]
  }

  lemma ChildrenFirstConcat(g: Graph, a: seq<Vertex>, b: seq<Vertex>)
    requires ChildrenFirst(g, a) && ChildrenFirst(g, b)
    ensures ChildrenFirst(g, a + b)
  {
    forall i, e | 0 <= i < |a + b| && e in g.edges && e.source == (a + b)[i] ensures e.target in (a + b)[..i] {
      if i < |a| {
        assert (a + b)[..i] == a[..i];
      } else {
        assert (a + b)[..i] == a + b[..i - |a|];
        assert (a + b)[i] == b[i - |a|];
      }
    }
  }

  lemma {:induction false} PostOrderChildrenFirst(g: Graph, v: Vertex)
    requires IsForest(g) && v in g.data
    ensures ChildrenFirst(g, PostOrder(TreeOf(g, v)))
    decreases g.next - v, |Children(g, v)| + 1
  {
    ChildrenFacts(g, v);
    var below := ForestPostOrder(ForestOf(g, v, Children(g, v)));
    ForestPostOrderChildrenFirst(g, v, Children(g, v));
    forall i, e | 0 <= i < |below + [v]| && e in g.edges && e.source == (below + [v])[i]
      ensures e.target in (below + [v])[..i]
    {
      if i < |below| {
        assert (below + [v])[..i] == below[..i];
      } else {
        assert (below + [v])[..i] == below;
        assert e == Edge(v, e.target);
      }
    }
  }

  lemma {:induction false} ForestPostOrderChildrenFirst(g: Graph, u: Vertex, cs: seq<Vertex>)
    requires IsForest(g) && AreChildren(g, u, cs)
    ensures ChildrenFirst(g, ForestPostOrder(ForestOf(g, u, cs)))
    ensures forall c :: c in cs ==> c in ForestPostOrder(ForestOf(g, u, cs))
    decreases g.next - u, |cs|
  {
    if cs != [] {
      assert cs[0] in cs && Edge(u, cs[0]) in g.edges;
      PostOrderChildrenFirst(g, cs[0]);
      ForestPostOrderChildrenFirst(g, u, cs[1..]);
      var a, b := PostOrder(TreeOf(g, cs[0])), ForestPostOrder(ForestOf(g, u, cs[1..]));
      ChildrenFirstConcat(g, a, b);
      assert a[|a| - 1] == cs[0];
    }
  }

  // ----- the command ------------------------------------------------------------------------

  /** The collected vertices are the subtree. */
  method RemoveListed(h: TagHierarchy, ghost top: Vertex, list: seq<Vertex>)
    requires Indexed(h.View()) && top in h.graph.data && list == PostOrder(TreeOf(h.graph, top))
    modifies h
    ensures h.View() == Removed(old(h.View()), Subtree(old(h.graph), top))
  {
    PostOrderIsSubtree(h.graph, top);
    RemoveInOrder(h, list);
  }

  /** The listed vertices are removed in order; each one has lost its children before. */
  method RemoveInOrder(h: TagHierarchy, list: seq<Vertex>)
    requires ChildrenFirst(h.graph, list) && NoDuplicates(list) && forall v :: v in list ==> v in h.graph.data
    modifies h
    ensures h.View() == Removed(old(h.View()), Elements(list))
  {
    ghost var st := h.View();
    WithoutNothing(st);
    assert Elements(list[..0]) == {};
    for i := 0 to |list|
      invariant h.View() == Removed(st, Elements(list[..i]))
    {
      var v := list[i];
      RemoveStep(st, list, i);
      var id := h.graph.data[v].id;
      h.graph := ClearInEdges(h.graph, v);
      h.graph := RemoveVertex(h.graph, v);
      h.vertices := h.vertices - {id};
    }
    assert list[..|list|] == list;
  }

  lemma RemoveStep(st: State, list: seq<Vertex>, i: nat)
    requires ChildrenFirst(st.graph, list) && NoDuplicates(list) && i < |list|
    requires forall v :: v in list ==> v in st.graph.data
    ensures var v, before, after := list[i], Removed(st, Elements(list[..i])), Removed(st, Elements(list[..i + 1]));
            var cleared := ClearInEdges(before.graph, v);
            && v in before.graph.data
            && (forall e :: e in cleared.edges ==> e.source != v && e.target != v)
            && RemoveVertex(cleared, v) == after.graph
            && before.index - {before.graph.data[v].id} == after.index
  {
    var v, gone := list[i], Elements(list[..i]);
    assert v in list && v !in gone;
    assert Elements(list[..i + 1]) == gone + {v} by { assert list[..i + 1] == list[..i] + [v]; }
    RemoveNext(st.graph, gone, v);
    assert IdsIn(st.graph, gone + {v}) == IdsIn(st.graph, gone) + {st.graph.data[v].id};
  }

  /** The recursion of the program: below the top it only collects, at the top it then removes. */
  method DeleteVertexRecursive(h: TagHierarchy, vertex: Vertex, collected: seq<Vertex>, depth: nat)
    returns (status: string, toDelete: seq<Vertex>)
    requires Indexed(h.View()) && vertex in h.graph.data
    requires depth == 0 ==> collected == []
    modifies h
    ensures status == "Success"
    ensures toDelete == collected + PostOrder(TreeOf(old(h.graph), vertex))
    ensures depth > 0 ==> h.View() == old(h.View())
    ensures depth == 0 ==> h.View() == Removed(old(h.View()), Subtree(old(h.graph), vertex))
    decreases h.graph.next - vertex
  {
    ghost var st := h.View();
    toDelete := collected;
    var cs := Children(h.graph, vertex);
    ChildrenFacts(h.graph, vertex);
    for i := 0 to |cs|
      invariant h.View() == st && AreChildren(st.graph, vertex, cs)
      invariant toDelete + ForestPostOrder(ForestOf(st.graph, vertex, cs[i..]))
             == collected + ForestPostOrder(ForestOf(st.graph, vertex, cs))
    {
      assert cs[i] in cs && Edge(vertex, cs[i]) in st.graph.edges;
      assert cs[i..][0] == cs[i] && cs[i..][1..] == cs[i + 1..];
      CollectChild(toDelete, TreeOf(st.graph, cs[i]), ForestOf(st.graph, vertex, cs[i + 1..]));
      var s;
      s, toDelete := DeleteVertexRecursive(h, cs[i], toDelete, depth + 1);
    }
    toDelete := toDelete + [vertex];
    CollectTop(st.graph, vertex, collected);
    if depth == 0 {
      assert [] + PostOrder(TreeOf(st.graph, vertex)) == PostOrder(TreeOf(st.graph, vertex));
      RemoveListed(h, vertex, toDelete);
    }
    status := "Success";
  }

  lemma CollectChild(collected: seq<Vertex>, t: Tree, rest: Forest)
    ensures collected + ForestPostOrder(Cons(t, rest)) == collected + PostOrder(t) + ForestPostOrder(rest)
  {
  }

  lemma CollectTop(g: Graph, v: Vertex, collected: seq<Vertex>)
    requires IsForest(g) && v in g.data && AreChildren(g, v, Children(g, v))
    ensures ForestOf(g, v, []) == Nil && ForestPostOrder(Nil) == []
    ensures collected + ForestPostOrder(ForestOf(g, v, Children(g, v))) + [v] == collected + PostOrder(TreeOf(g, v))
  {
  }

  /** The list holds the subtree, nothing twice, children in front of their parents. */
  lemma PostOrderIsSubtree(g: Graph, v: Vertex)
    requires IsForest(g) && v in g.data
    ensures var post := PostOrder(TreeOf(g, v));
            && Elements(post) == Subtree(g, v)
            && (forall x :: x in post ==> x in g.data)
            && NoDuplicates(post)
            && ChildrenFirst(g, post)
  {
    var post := PostOrder(TreeOf(g, v));
    TreeIsSubtree(g, v);
    TreeDistinct(g, v);
    PostOrderMembers(TreeOf(g, v));
    PostOrderOnce(TreeOf(g, v));
    PostOrderChildrenFirst(g, v);
    forall x | x in post ensures x in g.data { assert x in Elements(post); }
  }

  /** One listed id: looked up in the index as it is now. */
  method DeleteId(h: TagHierarchy, id: string) returns (status: string)
    requires Indexed(h.View())
    modifies h
    ensures h.View() == DeleteOne(old(h.View()), id)
    ensures status == if id in old(h.vertices) then "Success" else "Not found"
  {
    if id !in h.vertices {
      return "Not found";
    }
    var list;
    status, list := DeleteVertexRecursive(h, h.vertices[id], [], 0);
  }

  /** The listed ids have been deleted one after the other, each with its status. */
  ghost predicate BatchDone(st: State, ids: seq<string>, now: State, status: Node)
    requires Indexed(st)
  {
    now == DeleteAll(st, ids) && status == StatusOf(st, ids)
  }

  lemma BatchNext(st: State, done: seq<string>, id: string, now: State, status: Node)
    requires Indexed(st) && BatchDone(st, done, now, status)
    ensures Indexed(now)
    ensures BatchDone(st, done + [id], DeleteOne(now, id),
                      status[id := StrV(if id in now.index then "Success" else "Not found")])
  {
    BatchGrows(st, done, id);
  }

  lemma BatchGrows(st: State, ids: seq<string>, id: string)
    requires Indexed(st)
    ensures DeleteAll(st, ids + [id]) == DeleteOne(DeleteAll(st, ids), id)
    ensures StatusOf(st, ids + [id])
         == StatusOf(st, ids)[id := StrV(if id in DeleteAll(st, ids).index then "Success" else "Not found")]
  {
    assert (ids + [id])[..|ids|] == ids;
  }

  /** The loop over the listed ids. */
  method DeleteListed(h: TagHierarchy, ids: seq<string>) returns (status: Node)
    requires Indexed(h.View())
    modifies h
    ensures h.View() == DeleteAll(old(h.View()), ids) && status == StatusOf(old(h.View()), ids)
  {
    ghost var st := h.View();
    status := map[];
    for i := 0 to |ids|
      invariant BatchDone(st, ids[..i], h.View(), status)
    {
      assert ids[..i + 1] == ids[..i] + [ids[i]];
      BatchNext(st, ids[..i], ids[i], h.View(), status);
      var outcome := DeleteId(h, ids[i]);
      status := status[ids[i] := StrV(outcome)];
    }
    assert ids[..|ids|] == ids;
  }

  /** What the batch amounts to, read off the state before it. */
  ghost predicate BatchMeans(st: State, ids: seq<string>, st': State, reply: seq<Node>)
    requires IsForest(st.graph)
  {
    OnlyListedGone(st, ids, st') && |reply| == 1 && StatusesDecided(st, ids, reply[0])
  }

  lemma BatchDoneMeans(st: State, ids: seq<string>, st': State, status: Node)
    requires Indexed(st) && BatchDone(st, ids, st', status)
    ensures BatchMeans(st, ids, st', [status])
  {
    SurvivorsKeepData(st, ids);
    AllDecided(st, ids);
  }

  /** Without a list of ids the command throws, and then replies with nothing. */
  method ProcessRequest(h: TagHierarchy, command: Node) returns (reply: seq<Node>)
    requires Indexed(h.View())
    modifies h
    ensures h.View() == DeleteAll(old(h.View()), StringsAt(command, "nodes"))
    ensures if "nodes" in command && command["nodes"].StrsV?
            then BatchMeans(old(h.View()), command["nodes"].strs, h.View(), reply)
            else h.View() == old(h.View()) && reply == []
  {
    if "nodes" !in command || !command["nodes"].StrsV? {
      return [];
    }
    var status := DeleteListed(h, command["nodes"].strs);
    BatchDoneMeans(old(h.View()), command["nodes"].strs, h.View(), status);
    reply := [status];
  }
}
