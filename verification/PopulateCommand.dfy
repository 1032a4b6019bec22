/** The `populate_graph` command: vertices and edges are added one node at a time. */
module PopulateCommand {
  import opened Values
  import opened Graphs
  import opened Hierarchy

  const ROOT_VERTEX := Modelhierarchy("root", map["id" := StrV("root"), "levelno" := IntV(0)])

  predicate HasId(n: Node) {
    "id" in n && n["id"].StrV?
  }

  function IdOf(n: Node): string
    requires HasId(n)
  {
    n["id"].s
  }

  /** A node is identified by the string under "id". */
  lemma IdsMean(n: Node)
    ensures HasId(n) <==> exists id :: "id" in n && n["id"] == StrV(id)
    ensures HasId(n) ==> n["id"] == StrV(IdOf(n))
  {
    if HasId(n) { assert n["id"] == StrV(n["id"].s); }
  }

  predicate WantsRoot(command: Node) {
    FlagAt(command, "add_root")
  }

  function AddRoot(st: State): State {
    State(AddVertex(st.graph, ROOT_VERTEX), st.index, Some(st.graph.next))
  }

  /** A string parent id is looked up among the nodes inserted so far; anything else means the root. */
  function ParentVertex(st: State, n: Node): Option<Vertex> {
    match StringAt(n, "parent_id")
    case Some(p) => if p in st.index then Some(st.index[p]) else None
    case None => st.root
  }

  function Insert(st: State, n: Node): State
    requires HasId(n)
  {
    var v := st.graph.next;
    var g := AddVertex(st.graph, Modelhierarchy(IdOf(n), n));
    var p := ParentVertex(st, n);
    State(if p.Some? then AddEdge(g, p.value, v) else g, st.index[IdOf(n) := v], st.root)
  }

  ghost predicate HaveIds(nodes: seq<Node>) {
    forall n :: n in nodes ==> HasId(n)
  }

  ghost function InsertAll(st: State, nodes: seq<Node>): State
    requires HaveIds(nodes)
  {
    if nodes == [] then st
    else
      assert nodes[|nodes| - 1] in nodes;
      Insert(InsertAll(st, nodes[..|nodes| - 1]), nodes[|nodes| - 1])
  }

  /** New ids only, none of them reserved, and a root to hang parentless nodes from. */
  ghost predicate FreshBatch(st: State, nodes: seq<Node>) {
    && HaveIds(nodes)
    && (forall n :: n in nodes ==> IdOf(n) !in st.index && IdOf(n) != "root")
    && (forall i, j :: 0 <= i < j < |nodes| ==> IdOf(nodes[i]) != IdOf(nodes[j]))
    && (forall n :: n in nodes && StringAt(n, "parent_id").None? ==> st.root.Some?)
  }

  ghost function Started(st: State, command: Node): State {
    if WantsRoot(command) then AddRoot(st) else st
  }

  ghost predicate Admissible(st: State, command: Node, nodes: seq<Node>) {
    && SettingsTyped(command)
    && (WantsRoot(command) ==> st.root.None?)
    && FreshBatch(Started(st, command), nodes)
  }

  /** The nodes in front of the first one without an id, which throws. */
  function Leading(nodes: seq<Node>): (k: nat)
    ensures k <= |nodes| && (k < |nodes| ==> !HasId(nodes[k]))
    ensures forall i :: 0 <= i < k ==> HasId(nodes[i])
  {
    if nodes == [] || !HasId(nodes[0]) then 0 else 1 + Leading(nodes[1..])
  }

  predicate SettingsTyped(command: Node) {
    "add_root" in command ==> command["add_root"].BoolV?
  }

  /** The program's loop, after the root has been added on request. */
  method InsertBatch(h: TagHierarchy, command: Node, nodes: seq<Node>) returns (reply: seq<Node>)
    requires Valid(h.View())
    requires SettingsTyped(command) && !WantsRoot(command) && h.root.None? ==>
               forall i :: 0 <= i < Leading(nodes) ==> StringAt(nodes[i], "parent_id").Some?
    modifies h
    ensures !SettingsTyped(command) ==> h.View() == old(h.View()) && reply == []
    ensures SettingsTyped(command) ==>
              var k := Leading(nodes);
              && HaveIds(nodes[..k]) && h.View() == InsertAll(Started(old(h.View()), command), nodes[..k])
              && reply == if k == |nodes| then [map["success" := StrV("cache populated")]] else []
    ensures Admissible(old(h.View()), command, nodes) ==> Valid(h.View())
  {
    StartedValid(h.View(), command, nodes);
    if !SettingsTyped(command) {
      return [];
    }
    if "add_root" in command && command["add_root"].b {
      h.root := Some(h.graph.next);
      h.graph := AddVertex(h.graph, ROOT_VERTEX);
    }
    ghost var st := h.View();
    assert st == Started(old(h.View()), command);
    for i := 0 to |nodes|
      invariant i <= Leading(nodes) && HaveIds(nodes[..i])
      invariant h.View() == InsertAll(st, nodes[..i])
    {
      var node := nodes[i];
      if !HasId(node) {
        return [];
      }
      InsertNext(st, nodes, i);
      InsertAllKeepsRoot(st, nodes[..i]);
      InsertNode(h, node);
    }
    assert nodes[..|nodes|] == nodes;
    reply := [map["success" := StrV("cache populated")]];
  }

  /** A throw ends the batch and the command replies with nothing; what was inserted before it
      stays. A repeated id is inserted again, and the index then names the later vertex. */
  method ProcessRequest(h: TagHierarchy, command: Node, nodes: seq<Node>) returns (reply: seq<Node>)
    requires Valid(h.View())
    requires SettingsTyped(command) && !WantsRoot(command) && h.root.None? ==>
               forall i :: 0 <= i < Leading(nodes) ==> StringAt(nodes[i], "parent_id").Some?
    modifies h
    ensures !SettingsTyped(command) ==> h.View() == old(h.View()) && reply == []
    ensures SettingsTyped(command) ==>
              var k := Leading(nodes);
              && HaveIds(nodes[..k]) && h.View() == InsertAll(Started(old(h.View()), command), nodes[..k])
              && reply == if k == |nodes| then [map["success" := StrV("cache populated")]] else []
    ensures Admissible(old(h.View()), command, nodes) ==> Valid(h.View())
    ensures if "add_root" !in command || command["add_root"].BoolV?
            then BatchMeans(old(h.View()), command, nodes[..Leading(nodes)], h.View())
            else h.View() == old(h.View()) && reply == []
  {
    ghost var st, batch := h.View(), nodes[..Leading(nodes)];
    reply := InsertBatch(h, command, nodes);
    if SettingsTyped(command) { InsertedMeans(st, command, batch, h.View()); }
  }

  /** The body of the loop. */
  method InsertNode(h: TagHierarchy, node: Node)
    requires HasId(node) && (StringAt(node, "parent_id").None? ==> h.root.Some?)
    modifies h
    ensures h.View() == Insert(old(h.View()), node)
  {
    var id := node["id"].s;
    var current := h.graph.next;
    h.graph := AddVertex(h.graph, Modelhierarchy(id, node));
    if "parent_id" in node && node["parent_id"].StrV? {
      var parent := node["parent_id"].s;
      if parent in h.vertices {
        h.graph := AddEdge(h.graph, h.vertices[parent], current);
      }
    } else {
      h.graph := AddEdge(h.graph, h.root.value, current);
    }
    h.vertices := h.vertices[id := current];
  }

  lemma InsertNext(st: State, nodes: seq<Node>, i: nat)
    requires i < |nodes| && HaveIds(nodes[..i]) && HasId(nodes[i])
    ensures HaveIds(nodes[..i + 1])
    ensures InsertAll(st, nodes[..i + 1]) == Insert(InsertAll(st, nodes[..i]), nodes[i])
  {
    assert nodes[..i + 1][..i] == nodes[..i];
  }

  /** An admissible batch is inserted whole and keeps the invariant. */
  lemma StartedValid(st: State, command: Node, nodes: seq<Node>)
    requires Valid(st)
    ensures Admissible(st, command, nodes) ==>
              && HaveIds(nodes) && Leading(nodes) == |nodes| && nodes[..|nodes|] == nodes
              && Valid(InsertAll(Started(st, command), nodes))
  {
    if Admissible(st, command, nodes) {
      if WantsRoot(command) { AddRootValid(st); }
      InsertAllValid(Started(st, command), nodes);
      if Leading(nodes) < |nodes| { assert nodes[Leading(nodes)] in nodes; }
    }
  }

  lemma {:induction false} InsertAllKeepsRoot(st: State, nodes: seq<Node>)
    requires HaveIds(nodes)
    ensures InsertAll(st, nodes).root == st.root
  {
    if nodes != [] { InsertAllKeepsRoot(st, nodes[..|nodes| - 1]); }
  }

  // ----- the forest and the index are kept --------------------------------------------------

  lemma AddVertexForest(g: Graph, d: Modelhierarchy)
    requires IsForest(g)
    ensures IsForest(AddVertex(g, d))
  {
    forall i | 0 <= i < |g.order| ensures g.order[i] < g.next { assert g.order[i] in g.order; }
  }

  lemma AddEdgeForest(g: Graph, u: Vertex, v: Vertex)
    requires IsForest(g) && u in g.data && v in g.data && u < v
    requires forall e :: e in g.edges ==> e.target != v
    ensures IsForest(AddEdge(g, u, v))
  {
    forall i | 0 <= i < |g.edges| ensures g.edges[i].target != v { assert g.edges[i] in g.edges; }
  }

  lemma AddRootValid(st: State)
    requires Valid(st) && st.root.None?
    ensures Valid(AddRoot(st))
  {
    AddVertexForest(st.graph, ROOT_VERTEX);
  }

  lemma InsertIndexed(st: State, n: Node)
    requires Valid(st) && HasId(n) && IdOf(n) !in st.index && IdOf(n) != "root"
    ensures Indexed(Insert(st, n))
  {
    InsertForest(st, n);
    assert Insert(st, n).graph.data == st.graph.data[st.graph.next := Modelhierarchy(IdOf(n), n)];
    assert st.graph.next !in st.graph.data;
  }

  lemma InsertRooted(st: State, n: Node)
    requires Valid(st) && HasId(n) && IdOf(n) != "root"
    ensures Rooted(Insert(st, n))
  {
    var v, g' := st.graph.next, Insert(st, n).graph;
    assert g'.data == st.graph.data[v := Modelhierarchy(IdOf(n), n)];
    forall e | e in g'.edges ensures e in st.graph.edges || e.target == v {}
  }

  lemma InsertValid(st: State, n: Node)
    requires Valid(st) && HasId(n) && IdOf(n) !in st.index && IdOf(n) != "root"
    ensures Valid(Insert(st, n))
  {
    InsertIndexed(st, n);
    InsertRooted(st, n);
  }

  lemma InsertForest(st: State, n: Node)
    requires Valid(st) && HasId(n)
    ensures IsForest(Insert(st, n).graph)
  {
    var g := AddVertex(st.graph, Modelhierarchy(IdOf(n), n));
    AddVertexForest(st.graph, Modelhierarchy(IdOf(n), n));
    var p := ParentVertex(st, n);
    if p.Some? { AddEdgeForest(g, p.value, st.graph.next); }
  }

  lemma {:induction false} InsertAllIndex(st: State, nodes: seq<Node>, id: string)
    requires HaveIds(nodes)
    ensures id in InsertAll(st, nodes).index <==> id in st.index || exists n :: n in nodes && IdOf(n) == id
  {
    if nodes != [] {
      var init, last := nodes[..|nodes| - 1], nodes[|nodes| - 1];
      assert nodes == init + [last];
      InsertAllIndex(st, init, id);
    }
  }

  lemma FreshPrefix(st: State, nodes: seq<Node>)
    requires FreshBatch(st, nodes) && nodes != []
    ensures FreshBatch(st, nodes[..|nodes| - 1])
    ensures nodes[|nodes| - 1] in nodes && IdOf(nodes[|nodes| - 1]) !in InsertAll(st, nodes[..|nodes| - 1]).index
  {
    var init, last := nodes[..|nodes| - 1], nodes[|nodes| - 1];
    assert last in nodes;
    assert FreshBatch(st, init);
    InsertAllIndex(st, init, IdOf(last));
  }

  lemma {:induction false} InsertAllValid(st: State, nodes: seq<Node>)
    requires Valid(st) && FreshBatch(st, nodes)
    ensures Valid(InsertAll(st, nodes))
  {
    if nodes != [] {
      var init, last := nodes[..|nodes| - 1], nodes[|nodes| - 1];
      assert last in nodes;
      FreshPrefix(st, nodes);
      InsertAllValid(st, init);
      InsertValid(InsertAll(st, init), last);
    }
  }

  /** The vertex bears the node. */
  ghost predicate Bears(g: Graph, v: Vertex, n: Node)
    requires HasId(n)
  {
    v in g.data && g.data[v] == Modelhierarchy(IdOf(n), n)
  }

  /** The nodes are borne by consecutive vertices. */
  ghost predicate BearsAll(g: Graph, first: Vertex, nodes: seq<Node>) {
    forall i: nat :: i < |nodes| ==> HasId(nodes[i]) && Bears(g, first + i, nodes[i])
  }

  /** Whatever its ids, each node of a batch has a vertex of its own, and the root and the
      vertices from before are as they were. */
  ghost predicate Appended(st: State, nodes: seq<Node>, st': State) {
    && HaveIds(nodes)
    && st'.root == st.root && st'.graph.next == st.graph.next + |nodes|
    && (forall v :: v in st.graph.data ==> v in st'.graph.data && st'.graph.data[v] == st.graph.data[v])
    && BearsAll(st'.graph, st.graph.next, nodes)
  }

  lemma AppendOne(st: State, nodes: seq<Node>, before: State, after: State)
    requires nodes != [] && Appended(st, nodes[..|nodes| - 1], before) && HasId(nodes[|nodes| - 1])
    requires forall v :: v in st.graph.data ==> v < st.graph.next
    requires after == Insert(before, nodes[|nodes| - 1])
    ensures Appended(st, nodes, after)
  {
    var k := |nodes| - 1;
    forall i: nat | i < |nodes| ensures HasId(nodes[i]) && Bears(after.graph, st.graph.next + i, nodes[i]) {
      if i < k { assert nodes[..k][i] == nodes[i]; }
    }
  }

  lemma {:induction false} InsertAllAppends(st: State, nodes: seq<Node>)
    requires HaveIds(nodes) && forall v :: v in st.graph.data ==> v < st.graph.next
    ensures Appended(st, nodes, InsertAll(st, nodes))
  {
    if nodes != [] {
      assert nodes[|nodes| - 1] in nodes;
      InsertAllAppends(st, nodes[..|nodes| - 1]);
      AppendOne(st, nodes, InsertAll(st, nodes[..|nodes| - 1]), InsertAll(st, nodes));
    }
  }

  /** Of the nodes with one id the index names the last. */
  ghost predicate LastNamed(index: map<string, Vertex>, first: Vertex, nodes: seq<Node>, index': map<string, Vertex>) {
    && (forall id :: id in index' <==> id in index || exists n :: n in nodes && HasId(n) && IdOf(n) == id)
    && (forall i: nat :: i < |nodes| && HasId(nodes[i]) && LastWithId(nodes, i) ==>
          IdOf(nodes[i]) in index' && index'[IdOf(nodes[i])] == first + i)
    && (forall id :: id in index && (forall n :: n in nodes && HasId(n) ==> IdOf(n) != id) ==>
          id in index' && index'[id] == index[id])
  }

  ghost predicate LastWithId(nodes: seq<Node>, i: nat)
    requires i < |nodes| && HasId(nodes[i])
  {
    forall j :: i < j < |nodes| && HasId(nodes[j]) ==> IdOf(nodes[j]) != IdOf(nodes[i])
  }

  lemma NamesNext(st: State, nodes: seq<Node>, before: State, after: State)
    requires nodes != [] && HasId(nodes[|nodes| - 1])
    requires LastNamed(st.index, st.graph.next, nodes[..|nodes| - 1], before.index)
    requires before.graph.next == st.graph.next + |nodes| - 1 && after == Insert(before, nodes[|nodes| - 1])
    ensures LastNamed(st.index, st.graph.next, nodes, after.index)
  {
    var k := |nodes| - 1;
    var init, last := nodes[..k], nodes[k];
    assert nodes == init + [last] && last in nodes;
    forall i: nat | i < |nodes| && HasId(nodes[i]) && LastWithId(nodes, i)
      ensures IdOf(nodes[i]) in after.index && after.index[IdOf(nodes[i])] == st.graph.next + i
    {
      if i < k {
        assert init[i] == nodes[i] && IdOf(last) != IdOf(nodes[i]);
        forall j | i < j < k && HasId(init[j]) ensures IdOf(init[j]) != IdOf(init[i]) { assert init[j] == nodes[j]; }
        assert LastWithId(init, i);
      }
    }
  }

  lemma {:induction false} InsertAllNames(st: State, nodes: seq<Node>)
    requires HaveIds(nodes) && forall v :: v in st.graph.data ==> v < st.graph.next
    ensures LastNamed(st.index, st.graph.next, nodes, InsertAll(st, nodes).index)
  {
    if nodes != [] {
      assert nodes[|nodes| - 1] in nodes;
      InsertAllNames(st, nodes[..|nodes| - 1]);
      InsertAllAppends(st, nodes[..|nodes| - 1]);
      NamesNext(st, nodes, InsertAll(st, nodes[..|nodes| - 1]), InsertAll(st, nodes));
    }
  }

  /** With the flag a root is added first, a new vertex called "root" on level 0; each node has a
      new vertex of its own, the index names the last one of each id, and what was there stays. */
  ghost predicate BatchMeans(st: State, command: Node, nodes: seq<Node>, st': State) {
    var flagged := "add_root" in command && command["add_root"] == BoolV(true);
    var first := st.graph.next + if flagged then 1 else 0;
    && st'.graph.next == first + |nodes|
    && (if flagged then
          && st'.root == Some(st.graph.next) && st.graph.next in st'.graph.data
          && st'.graph.data[st.graph.next]
             == Modelhierarchy("root", map["id" := StrV("root"), "levelno" := IntV(0)])
        else st'.root == st.root)
    && (forall v :: v in st.graph.data ==> v in st'.graph.data && st'.graph.data[v] == st.graph.data[v])
    && BearsAll(st'.graph, first, nodes)
    && LastNamed(st.index, first, nodes, st'.index)
  }

  lemma InsertedMeans(st: State, command: Node, nodes: seq<Node>, st': State)
    requires Valid(st) && SettingsTyped(command) && HaveIds(nodes)
    requires st' == InsertAll(Started(st, command), nodes)
    ensures BatchMeans(st, command, nodes, st')
  {
    var started := Started(st, command);
    InsertAllAppends(started, nodes);
    InsertAllNames(started, nodes);
    AppendedMeans(st, command, started, nodes, st');
  }

  lemma AppendedMeans(st: State, command: Node, started: State, nodes: seq<Node>, st': State)
    requires SettingsTyped(command) && (forall v :: v in st.graph.data ==> v < st.graph.next)
    requires started == Started(st, command) && Appended(started, nodes, st')
    requires LastNamed(started.index, started.graph.next, nodes, st'.index)
    ensures BatchMeans(st, command, nodes, st')
  {
    StartedMeans(st, command);
    if WantsRoot(command) { assert started.graph.data[st.graph.next] == st'.graph.data[st.graph.next]; }
  }

  lemma StartedMeans(st: State, command: Node)
    requires SettingsTyped(command) && (forall v :: v in st.graph.data ==> v < st.graph.next)
    ensures WantsRoot(command) <==> "add_root" in command && command["add_root"] == BoolV(true)
    ensures var started := Started(st, command);
            && started.index == st.index
            && (forall v :: v in st.graph.data ==> v in started.graph.data && started.graph.data[v] == st.graph.data[v])
            && if WantsRoot(command) then
                 && started.graph.next == st.graph.next + 1 && started.root == Some(st.graph.next)
                 && st.graph.next in started.graph.data
                 && started.graph.data[st.graph.next]
                    == Modelhierarchy("root", map["id" := StrV("root"), "levelno" := IntV(0)])
               else started == st
  {
  }

  lemma ValidMeansNew(st: State, nodes: seq<Node>, st': State, i: nat)
    requires Valid(st) && Valid(st') && Appended(st, nodes, st') && i < |nodes| && HasId(nodes[i])
    ensures IdOf(nodes[i]) !in st.index && IdOf(nodes[i]) != "root"
  {
    assert Bears(st'.graph, st.graph.next + i, nodes[i]);
    if IdOf(nodes[i]) in st.index { assert st'.graph.data[st.index[IdOf(nodes[i])]].id == IdOf(nodes[i]); }
  }

  lemma ValidMeansDistinct(st: State, nodes: seq<Node>, st': State, i: nat, j: nat)
    requires Valid(st') && Appended(st, nodes, st') && i < j < |nodes| && HasId(nodes[i]) && HasId(nodes[j])
    ensures IdOf(nodes[i]) != IdOf(nodes[j])
  {
    assert Bears(st'.graph, st.graph.next + i, nodes[i]) && Bears(st'.graph, st.graph.next + j, nodes[j]);
  }

  lemma ValidMeansFresh(st: State, nodes: seq<Node>, st': State)
    requires Valid(st) && Valid(st') && Appended(st, nodes, st')
    requires forall n :: n in nodes && StringAt(n, "parent_id").None? ==> st.root.Some?
    ensures FreshBatch(st, nodes)
  {
    forall n | n in nodes ensures IdOf(n) !in st.index && IdOf(n) != "root" {
      var i :| 0 <= i < |nodes| && nodes[i] == n;
      ValidMeansNew(st, nodes, st', i);
    }
    forall i, j | 0 <= i < j < |nodes| ensures IdOf(nodes[i]) != IdOf(nodes[j]) {
      ValidMeansDistinct(st, nodes, st', i, j);
    }
  }

  /** A batch keeps the invariant exactly when its ids are new, distinct and not reserved. */
  lemma PopulateKeepsValid(st: State, nodes: seq<Node>)
    requires Valid(st) && HaveIds(nodes)
    requires forall n :: n in nodes && StringAt(n, "parent_id").None? ==> st.root.Some?
    ensures Valid(InsertAll(st, nodes)) <==> FreshBatch(st, nodes)
  {
    InsertAllAppends(st, nodes);
    if Valid(InsertAll(st, nodes)) { ValidMeansFresh(st, nodes, InsertAll(st, nodes)); }
    if FreshBatch(st, nodes) { InsertAllValid(st, nodes); }
  }

  /** The i-th node is stored under its id, i places after the old end of the vertex list. */
  ghost predicate StoredAt(st: State, st': State, n: Node, i: nat)
    requires HasId(n)
  {
    && IdOf(n) in st'.index && st'.index[IdOf(n)] in st'.graph.data
    && st'.graph.data[st'.index[IdOf(n)]] == Modelhierarchy(IdOf(n), n)
    && |st.graph.order| + i < |st'.graph.order|
    && st'.index[IdOf(n)] == st'.graph.order[|st.graph.order| + i]
  }

  /** Vertices, edges, index entries and root from before are still there. */
  ghost predicate Extends(st: State, st': State) {
    && st.graph.order <= st'.graph.order && st.graph.edges <= st'.graph.edges && st.root == st'.root
    && (forall v :: v in st.graph.data ==> v in st'.graph.data && st'.graph.data[v] == st.graph.data[v])
    && (forall id :: id in st.index ==> id in st'.index && st'.index[id] == st.index[id])
  }

  lemma InsertExtends(st: State, n: Node)
    requires Valid(st) && HasId(n) && IdOf(n) !in st.index
    ensures Extends(st, Insert(st, n)) && |Insert(st, n).graph.order| == |st.graph.order| + 1
    ensures StoredAt(st, Insert(st, n), n, 0)
  {
  }

  lemma StaysStored(st: State, before: State, after: State, n: Node, i: nat)
    requires HasId(n) && StoredAt(st, before, n, i) && Extends(before, after)
    ensures StoredAt(st, after, n, i)
  {
  }

  ghost predicate Stores(st: State, st': State, nodes: seq<Node>) {
    && Extends(st, st') && |st'.graph.order| == |st.graph.order| + |nodes|
    && forall i :: 0 <= i < |nodes| ==> HasId(nodes[i]) && StoredAt(st, st', nodes[i], i)
  }

  lemma StoresNext(st: State, before: State, nodes: seq<Node>)
    requires nodes != [] && Stores(st, before, nodes[..|nodes| - 1]) && Valid(before)
    requires HasId(nodes[|nodes| - 1]) && IdOf(nodes[|nodes| - 1]) !in before.index
    ensures Stores(st, Insert(before, nodes[|nodes| - 1]), nodes)
  {
    var k := |nodes| - 1;
    var after := Insert(before, nodes[k]);
    InsertExtends(before, nodes[k]);
    forall i | 0 <= i < |nodes| ensures HasId(nodes[i]) && StoredAt(st, after, nodes[i], i) {
      if i < k {
        assert nodes[..k][i] == nodes[i];
        StaysStored(st, before, after, nodes[i], i);
      }
    }
  }

  lemma PrefixValid(st: State, nodes: seq<Node>)
    requires Valid(st) && FreshBatch(st, nodes) && nodes != []
    ensures FreshBatch(st, nodes[..|nodes| - 1]) && Valid(InsertAll(st, nodes[..|nodes| - 1]))
    ensures HasId(nodes[|nodes| - 1]) && IdOf(nodes[|nodes| - 1]) !in InsertAll(st, nodes[..|nodes| - 1]).index
  {
    FreshPrefix(st, nodes);
    InsertAllValid(st, nodes[..|nodes| - 1]);
  }

  /** The batch extends the hierarchy by exactly its nodes, in order, each with its own
      properties. */
  lemma {:induction false} PopulateStoresNodes(st: State, nodes: seq<Node>)
    requires Valid(st) && FreshBatch(st, nodes)
    ensures Stores(st, InsertAll(st, nodes), nodes)
  {
    if nodes == [] {
      assert Stores(st, st, []);
    } else {
      PrefixValid(st, nodes);
      PopulateStoresNodes(st, nodes[..|nodes| - 1]);
      StoresNext(st, InsertAll(st, nodes[..|nodes| - 1]), nodes);
    }
  }

  // ----- batches ----------------------------------------------------------------------------

  /** One batch is the same as two consecutive ones. */
  lemma {:induction false} BatchesCompose(st: State, a: seq<Node>, b: seq<Node>)
    requires HaveIds(a) && HaveIds(b)
    ensures HaveIds(a + b) && InsertAll(st, a + b) == InsertAll(InsertAll(st, a), b)
  {
    if b == [] {
      assert a + b == a;
    } else {
      BatchesCompose(st, a, b[..|b| - 1]);
      assert (a + b)[..|a + b| - 1] == a + b[..|b| - 1];
      assert HaveIds(a + b);
    }
  }

  // ----- the parent relation ----------------------------------------------------------------

  /** The id of the parent of the vertex indexed under id. */
  function ParentIdOf(st: State, id: string): Option<string> {
    if id !in st.index then None
    else
      match Parent(st.graph, st.index[id])
      case None => None
      case Some(p) => if p in st.graph.data then Some(st.graph.data[p].id) else None
  }

  /** What a node's `parent_id` asks for, given which ids can be found. */
  function WantedParent(n: Node, known: set<string>): Option<string> {
    match StringAt(n, "parent_id")
    case None => Some("root")
    case Some(p) => if p in known then Some(p) else None
  }

  ghost function KnownIds(st: State, nodes: seq<Node>): set<string>
    requires HaveIds(nodes)
  {
    st.index.Keys + set n | n in nodes :: IdOf(n)
  }

  lemma InsertedParentId(st: State, n: Node)
    requires Valid(st) && HasId(n) && IdOf(n) !in st.index
    requires StringAt(n, "parent_id").None? ==> st.root.Some?
    ensures ParentIdOf(Insert(st, n), IdOf(n)) == WantedParent(n, st.index.Keys)
  {
    InsertParent(st, n, st.graph.next);
  }

  lemma OtherParentId(st: State, n: Node, id: string)
    requires Valid(st) && HasId(n) && id in st.index && id != IdOf(n)
    ensures ParentIdOf(Insert(st, n), id) == ParentIdOf(st, id)
  {
    InsertParent(st, n, st.index[id]);
  }

  lemma InsertParentIds(st: State, n: Node, id: string)
    requires Valid(st) && HasId(n) && IdOf(n) !in st.index && IdOf(n) != "root"
    requires StringAt(n, "parent_id").None? ==> st.root.Some?
    ensures ParentIdOf(Insert(st, n), id)
         == if id == IdOf(n) then WantedParent(n, st.index.Keys) else ParentIdOf(st, id)
  {
    if id == IdOf(n) {
      InsertedParentId(st, n);
    } else if id in st.index {
      OtherParentId(st, n, id);
    }
  }

  lemma InsertParent(st: State, n: Node, x: Vertex)
    requires Valid(st) && HasId(n) && x <= st.graph.next
    ensures Parent(Insert(st, n).graph, x) == if x == st.graph.next then ParentVertex(st, n) else Parent(st.graph, x)
    ensures Parent(st.graph, x).Some? ==> Parent(st.graph, x).value in st.graph.data
  {
    var g, g' := st.graph, Insert(st, n).graph;
    if ParentVertex(st, n).Some? {
      assert g'.edges[..|g'.edges| - 1] == g.edges;
    }
    assert Parent(g, g.next).None?;
  }

  /** The i-th node has been given the parent it asked for. */
  ghost predicate ParentBuilt(st: State, st': State, nodes: seq<Node>, i: nat)
    requires i < |nodes|
  {
    && HaveIds(nodes[..i]) && HasId(nodes[i])
    && ParentIdOf(st', IdOf(nodes[i])) == WantedParent(nodes[i], KnownIds(st, nodes[..i]))
  }

  /** The parent of the i-th node is the one its `parent_id` names, found among the ids known
      before the batch and the nodes in front of it; a null parent is the root. */
  ghost predicate ParentsBuilt(st: State, st': State, nodes: seq<Node>) {
    forall i: nat :: i < |nodes| ==> ParentBuilt(st, st', nodes, i)
  }

  ghost predicate ParentsKept(st: State, st': State) {
    forall id :: id in st.index ==> ParentIdOf(st', id) == ParentIdOf(st, id)
  }

  /** Inserting n gives n its parent and leaves the others theirs. */
  ghost predicate OneMoreParent(before: State, after: State, n: Node)
    requires HasId(n)
  {
    forall id :: ParentIdOf(after, id)
              == if id == IdOf(n) then WantedParent(n, before.index.Keys) else ParentIdOf(before, id)
  }

  lemma InsertOneMoreParent(st: State, n: Node)
    requires Valid(st) && HasId(n) && IdOf(n) !in st.index && IdOf(n) != "root"
    requires StringAt(n, "parent_id").None? ==> st.root.Some?
    ensures OneMoreParent(st, Insert(st, n), n)
  {
    forall id
      ensures ParentIdOf(Insert(st, n), id)
           == if id == IdOf(n) then WantedParent(n, st.index.Keys) else ParentIdOf(st, id)
    {
      InsertParentIds(st, n, id);
    }
  }

  lemma ParentStaysBuilt(st: State, before: State, after: State, nodes: seq<Node>, i: nat)
    requires i < |nodes| - 1 && HaveIds(nodes[..|nodes| - 1]) && HasId(nodes[|nodes| - 1])
    requires before.index.Keys == KnownIds(st, nodes[..|nodes| - 1]) && IdOf(nodes[|nodes| - 1]) !in before.index
    requires OneMoreParent(before, after, nodes[|nodes| - 1])
    requires ParentBuilt(st, before, nodes[..|nodes| - 1], i)
    ensures ParentBuilt(st, after, nodes, i)
  {
    var init := nodes[..|nodes| - 1];
    assert nodes[..i] == init[..i] && nodes[i] == init[i] && init[i] in init;
    assert IdOf(nodes[i]) in KnownIds(st, init);
  }

  lemma ParentsNext(st: State, before: State, after: State, nodes: seq<Node>)
    requires nodes != [] && HaveIds(nodes[..|nodes| - 1]) && HasId(nodes[|nodes| - 1])
    requires before.index.Keys == KnownIds(st, nodes[..|nodes| - 1]) && IdOf(nodes[|nodes| - 1]) !in before.index
    requires OneMoreParent(before, after, nodes[|nodes| - 1])
    requires ParentsBuilt(st, before, nodes[..|nodes| - 1]) && ParentsKept(st, before)
    ensures ParentsBuilt(st, after, nodes) && ParentsKept(st, after)
  {
    var k := |nodes| - 1;
    forall i: nat | i < |nodes| ensures ParentBuilt(st, after, nodes, i) {
      if i < k {
        assert ParentBuilt(st, before, nodes[..k], i);
        ParentStaysBuilt(st, before, after, nodes, i);
      }
    }
    assert forall id :: id in st.index ==> id in KnownIds(st, nodes[..k]);
  }

  lemma PrefixKnown(st: State, nodes: seq<Node>)
    requires HaveIds(nodes)
    ensures InsertAll(st, nodes).index.Keys == KnownIds(st, nodes)
  {
    forall id ensures id in InsertAll(st, nodes).index <==> id in KnownIds(st, nodes) {
      InsertAllIndex(st, nodes, id);
    }
  }

  /** After the batch every node has the parent it asked for, as far as it was known when the
      node was inserted, and the vertices from before have the parents they had. */
  lemma {:induction false} PopulateBuildsParents(st: State, nodes: seq<Node>)
    requires Valid(st) && FreshBatch(st, nodes)
    ensures ParentsBuilt(st, InsertAll(st, nodes), nodes) && ParentsKept(st, InsertAll(st, nodes))
  {
    if nodes != [] {
      var init := nodes[..|nodes| - 1];
      assert nodes[|nodes| - 1] in nodes;
      PrefixValid(st, nodes);
      PopulateBuildsParents(st, init);
      InsertAllKeepsRoot(st, init);
      PrefixKnown(st, init);
      InsertOneMoreParent(InsertAll(st, init), nodes[|nodes| - 1]);
      ParentsNext(st, InsertAll(st, init), InsertAll(st, nodes), nodes);
    }
  }

  /** A node whose parent is in the batch comes after it. */
  ghost predicate ParentsFirst(st: State, nodes: seq<Node>)
    requires HaveIds(nodes)
  {
    forall i | 0 <= i < |nodes| ::
      var p := StringAt(nodes[i], "parent_id");
      p.Some? && p.value in KnownIds(st, nodes) ==>
        HaveIds(nodes[..i]) && p.value in KnownIds(st, nodes[..i])
  }

  /** With parents first, which ids are known no longer depends on the order. */
  lemma ParentsFirstParents(st: State, nodes: seq<Node>, n: Node)
    requires Valid(st) && FreshBatch(st, nodes) && ParentsFirst(st, nodes) && n in nodes
    ensures ParentIdOf(InsertAll(st, nodes), IdOf(n)) == WantedParent(n, KnownIds(st, nodes))
  {
    var i :| 0 <= i < |nodes| && nodes[i] == n;
    PopulateBuildsParents(st, nodes);
    assert ParentBuilt(st, InsertAll(st, nodes), nodes, i);
    assert KnownIds(st, nodes[..i]) <= KnownIds(st, nodes);
  }

  /** Two parents-first orders of the same nodes give the same parent relation. */
  lemma OrderIrrelevant(st: State, a: seq<Node>, b: seq<Node>, id: string)
    requires Valid(st) && FreshBatch(st, a) && FreshBatch(st, b)
    requires ParentsFirst(st, a) && ParentsFirst(st, b)
    requires forall n :: n in a <==> n in b
    ensures ParentIdOf(InsertAll(st, a), id) == ParentIdOf(InsertAll(st, b), id)
  {
    InsertAllIndex(st, a, id);
    InsertAllIndex(st, b, id);
    assert KnownIds(st, a) == KnownIds(st, b);
    if n :| n in a && IdOf(n) == id {
      ParentsFirstParents(st, a, n);
      ParentsFirstParents(st, b, n);
    } else if id in st.index {
      PopulateBuildsParents(st, a);
      PopulateBuildsParents(st, b);
    }
  }
}
