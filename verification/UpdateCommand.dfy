/** The `update` command: properties are replaced vertex by vertex, provided the parent stays. */
module UpdateCommand {
  import opened Values
  import opened Graphs
  import opened Hierarchy
  import PopulateCommand

  datatype Verdict = Accepted | Rejected | Thrown

  /** What happens to one item: an unknown id or a missing property throws. */
  function Judge(st: State, n: Node): Verdict {
    if !PopulateCommand.HasId(n) || PopulateCommand.IdOf(n) !in st.index then Thrown
    else
      var v := st.index[PopulateCommand.IdOf(n)];
      if v !in st.graph.data || "parent_id" !in st.graph.data[v].properties || "parent_id" !in n then Thrown
      else if st.graph.data[v].properties["parent_id"] != n["parent_id"] then Rejected
      else Accepted
  }

  function UpdateOne(st: State, n: Node): State {
    if Judge(st, n).Accepted? then
      var v := st.index[PopulateCommand.IdOf(n)];
      st.(graph := st.graph.(data := st.graph.data[v := st.graph.data[v].(properties := n)]))
    else st
  }

  /** A throw ends the batch; what was applied before it stays. */
  function UpdateAll(st: State, nodes: seq<Node>): State
    decreases |nodes|
  {
    if nodes == [] || Judge(st, nodes[0]).Thrown? then st
    else UpdateAll(UpdateOne(st, nodes[0]), nodes[1..])
  }

  function Refusal(n: Node): Node {
    map["error" := StrV("Tried to modify parent id of object "
                        + if PopulateCommand.HasId(n) then PopulateCommand.IdOf(n) else "")]
  }

  /** One refusal for each rejected item, in order, all judged in the same state. */
  function Refusals(st: State, nodes: seq<Node>): seq<Node> {
    if nodes == [] then []
    else
      Refusals(st, nodes[..|nodes| - 1])
      + if Judge(st, nodes[|nodes| - 1]).Rejected? then [Refusal(nodes[|nodes| - 1])] else []
  }

  function Summary(refusals: seq<Node>): seq<Node> {
    if refusals == [] then [map["ok" := StrV("true")]]
    else [map["error" := StrV("conflicting updates")]] + refusals
  }

  predicate AnyThrown(st: State, nodes: seq<Node>) {
    exists n :: n in nodes && Judge(st, n).Thrown?
  }

  /** The items in front of the first that throws. */
  function Performed(st: State, nodes: seq<Node>): seq<Node> {
    if nodes == [] || Judge(st, nodes[0]).Thrown? then [] else [nodes[0]] + Performed(st, nodes[1..])
  }

  /** The last accepted item for v, or what v had before. */
  function LastAccepted(st: State, nodes: seq<Node>, v: Vertex): Node
    requires v in st.graph.data
  {
    if nodes == [] then st.graph.data[v].properties
    else
      var last := nodes[|nodes| - 1];
      if Judge(st, last).Accepted? && st.index[PopulateCommand.IdOf(last)] == v then last
      else LastAccepted(st, nodes[..|nodes| - 1], v)
  }

  /** One item; a throw is reported as such and changes nothing. */
  method ApplyItem(h: TagHierarchy, node: Node) returns (verdict: Verdict)
    requires Valid(h.View())
    modifies h
    ensures verdict == Judge(old(h.View()), node)
    ensures h.View() == UpdateOne(old(h.View()), node)
  {
    if !PopulateCommand.HasId(node) || PopulateCommand.IdOf(node) !in h.vertices {
      return Thrown;
    }
    var existing := h.vertices[PopulateCommand.IdOf(node)];
    if "parent_id" !in h.graph.data[existing].properties || "parent_id" !in node {
      return Thrown;
    }
    if h.graph.data[existing].properties["parent_id"] != node["parent_id"] {
      return Rejected;
    }
    h.graph := h.graph.(data := h.graph.data[existing := h.graph.data[existing].(properties := node)]);
    verdict := Accepted;
  }

  ghost predicate SameVerdicts(st: State, st': State) {
    forall n :: Judge(st, n) == Judge(st', n)
  }

  /** The loop over the items. */
  method ApplyItems(h: TagHierarchy, nodes: seq<Node>) returns (reply: seq<Node>)
    requires Valid(h.View())
    modifies h
    ensures h.View() == UpdateAll(old(h.View()), nodes) && Valid(h.View())
    ensures reply == if AnyThrown(old(h.View()), nodes) then []
                     else Summary(Refusals(old(h.View()), nodes))
  {
    ghost var st := h.View();
    var refusals := [];
    assert nodes[0..] == nodes && nodes[..0] == [];
    for i := 0 to |nodes|
      invariant Updating(st, h.View(), nodes, i, refusals)
    {
      UpdatingNext(st, h.View(), nodes, i, refusals);
      var verdict := ApplyItem(h, nodes[i]);
      if verdict.Thrown? {
        return [];
      }
      if verdict.Rejected? {
        refusals := refusals + [Refusal(nodes[i])];
      }
    }
    assert nodes[..|nodes|] == nodes && nodes[|nodes|..] == [];
    reply := Summary(refusals);
  }

  method ProcessRequest(h: TagHierarchy, nodes: seq<Node>) returns (reply: seq<Node>)
    requires Valid(h.View())
    modifies h
    ensures h.View() == UpdateAll(old(h.View()), nodes) && Valid(h.View())
    ensures UpdateMeans(old(h.View()), nodes, h.View()) && ReplyMeans(old(h.View()), nodes, reply)
  {
    UpdateAllMeans(h.View(), nodes);
    SummaryMeans(h.View(), nodes);
    reply := ApplyItems(h, nodes);
  }

  /** The first i items are done, and every verdict is still that of the initial state. */
  ghost predicate Updating(st: State, now: State, nodes: seq<Node>, i: nat, refusals: seq<Node>) {
    && i <= |nodes| && Valid(now) && SameVerdicts(st, now)
    && UpdateAll(now, nodes[i..]) == UpdateAll(st, nodes)
    && !AnyThrown(st, nodes[..i])
    && refusals == Refusals(st, nodes[..i])
  }

  lemma UpdatingNext(st: State, now: State, nodes: seq<Node>, i: nat, refusals: seq<Node>)
    requires Updating(st, now, nodes, i, refusals) && i < |nodes|
    ensures var verdict, next := Judge(now, nodes[i]), UpdateOne(now, nodes[i]);
            if verdict.Thrown? then Valid(next) && next == UpdateAll(st, nodes) && AnyThrown(st, nodes)
            else
              Updating(st, next, nodes, i + 1, refusals + if verdict.Rejected? then [Refusal(nodes[i])] else [])
  {
    assert nodes[i..][0] == nodes[i] && nodes[i..][1..] == nodes[i + 1..];
    assert nodes[..i + 1] == nodes[..i] + [nodes[i]] && nodes[i] in nodes;
    assert Judge(now, nodes[i]) == Judge(st, nodes[i]);
    UpdateKeepsValid(now, nodes[i]);
    UpdateKeepsVerdicts(st, now, nodes[i]);
    RefusalsNext(st, nodes[..i], nodes[i]);
  }

  lemma RefusalsNext(st: State, nodes: seq<Node>, n: Node)
    ensures Refusals(st, nodes + [n]) == Refusals(st, nodes) + if Judge(st, n).Rejected? then [Refusal(n)] else []
    ensures AnyThrown(st, nodes + [n]) <==> AnyThrown(st, nodes) || Judge(st, n).Thrown?
  {
    assert (nodes + [n])[..|nodes|] == nodes;
    assert n in nodes + [n];
    if m :| m in nodes && Judge(st, m).Thrown? { assert m in nodes + [n]; }
  }

  // ----- every item is judged by the initial state ------------------------------------------

  /** An accepted item keeps the parent id, so it changes no later verdict. */
  lemma UpdateKeepsJudgement(st: State, n: Node, m: Node)
    ensures Judge(UpdateOne(st, n), m) == Judge(st, m)
  {
  }

  lemma UpdateKeepsVerdicts(st: State, before: State, n: Node)
    requires SameVerdicts(st, before)
    ensures SameVerdicts(st, UpdateOne(before, n))
  {
    forall m ensures Judge(UpdateOne(before, n), m) == Judge(before, m) { UpdateKeepsJudgement(before, n, m); }
  }

  /** New properties under the same ids leave the forest and the index as they are. */
  lemma RelabelKeepsIndexed(st: State, data: map<Vertex, Modelhierarchy>)
    requires Indexed(st) && data.Keys == st.graph.data.Keys
    requires forall v :: v in data ==> data[v].id == st.graph.data[v].id
    ensures Indexed(st.(graph := st.graph.(data := data)))
  {
    assert forall v :: v in data <==> v in st.graph.data;
  }

  lemma UpdateKeepsValid(st: State, n: Node)
    requires Valid(st)
    ensures Valid(UpdateOne(st, n))
  {
    var st' := UpdateOne(st, n);
    assert st'.graph.data.Keys == st.graph.data.Keys;
    assert forall v :: v in st.graph.data ==> st'.graph.data[v].id == st.graph.data[v].id;
    RelabelKeepsIndexed(st, st'.graph.data);
  }

  lemma {:induction false} UpdateAllKeepsValid(st: State, nodes: seq<Node>)
    requires Valid(st)
    ensures Valid(UpdateAll(st, nodes))
    decreases |nodes|
  {
    if nodes != [] && !Judge(st, nodes[0]).Thrown? {
      UpdateKeepsValid(st, nodes[0]);
      UpdateAllKeepsValid(UpdateOne(st, nodes[0]), nodes[1..]);
    }
  }

  lemma {:induction false} PerformedSame(st: State, st': State, nodes: seq<Node>)
    requires SameVerdicts(st, st')
    ensures Performed(st, nodes) == Performed(st', nodes)
  {
    if nodes != [] { PerformedSame(st, st', nodes[1..]); }
  }

  lemma {:induction false} LastAcceptedStep(st: State, n: Node, nodes: seq<Node>, v: Vertex)
    requires v in st.graph.data && !Judge(st, n).Thrown?
    ensures LastAccepted(UpdateOne(st, n), nodes, v) == LastAccepted(st, [n] + nodes, v)
  {
    if nodes == [] {
      assert [n] + nodes == [n] && [n][..0] == [];
    } else {
      var init := nodes[..|nodes| - 1];
      LastAcceptedStep(st, n, init, v);
      assert ([n] + nodes)[..|nodes|] == [n] + init;
      UpdateKeepsJudgement(st, n, nodes[|nodes| - 1]);
    }
  }

  /** Each vertex ends with its last accepted properties, accepted meaning accepted by the
      state before the batch; ids, structure, index and root are untouched. */
  lemma {:induction false} UpdateDecidedInitially(st: State, nodes: seq<Node>)
    ensures var st' := UpdateAll(st, nodes);
            && st'.index == st.index && st'.root == st.root
            && st'.graph == st.graph.(data := st'.graph.data)
            && st'.graph.data.Keys == st.graph.data.Keys
            && forall v :: v in st.graph.data ==>
                 st'.graph.data[v] == st.graph.data[v].(properties := LastAccepted(st, Performed(st, nodes), v))
    decreases |nodes|
  {
    if nodes != [] && !Judge(st, nodes[0]).Thrown? {
      var st1, rest := UpdateOne(st, nodes[0]), nodes[1..];
      UpdateDecidedInitially(st1, rest);
      forall n ensures Judge(st, n) == Judge(st1, n) { UpdateKeepsJudgement(st, nodes[0], n); }
      PerformedSame(st, st1, rest);
      forall v | v in st.graph.data
        ensures UpdateAll(st, nodes).graph.data[v]
             == st.graph.data[v].(properties := LastAccepted(st, Performed(st, nodes), v))
      {
        LastAcceptedStep(st, nodes[0], Performed(st, rest), v);
      }
    }
  }

  // ----- what a batch means, read off the state before it -----------------------------------

  /** The item names an indexed vertex, and both have a parent id. */
  ghost predicate Comparable(st: State, n: Node) {
    && "id" in n && n["id"].StrV? && n["id"].s in st.index
    && st.index[n["id"].s] in st.graph.data
    && "parent_id" in st.graph.data[st.index[n["id"].s]].properties && "parent_id" in n
  }

  /** And the parent id is the same. */
  ghost predicate KeepsParent(st: State, n: Node) {
    Comparable(st, n) && st.graph.data[st.index[n["id"].s]].properties["parent_id"] == n["parent_id"]
  }

  /** Every item in front of the i-th, and the i-th, can be compared: it is looked at. */
  ghost predicate LookedAt(st: State, nodes: seq<Node>, i: int) {
    0 <= i < |nodes| && forall j :: 0 <= j <= i ==> Comparable(st, nodes[j])
  }

  /** The i-th item replaces the properties of v for good. */
  ghost predicate Replaces(st: State, nodes: seq<Node>, i: int, v: Vertex) {
    && LookedAt(st, nodes, i) && KeepsParent(st, nodes[i]) && st.index[nodes[i]["id"].s] == v
    && forall j :: i < j && LookedAt(st, nodes, j) && nodes[j]["id"] == nodes[i]["id"] ==> !KeepsParent(st, nodes[j])
  }

  /** A vertex ends with the properties of the item that replaces its own, if there is one, and is
      otherwise as it was; nothing else changes. */
  ghost predicate UpdateMeans(st: State, nodes: seq<Node>, st': State) {
    && st'.index == st.index && st'.root == st.root && st'.graph.order == st.graph.order
    && st'.graph.edges == st.graph.edges && st'.graph.data.Keys == st.graph.data.Keys
    && (forall v :: v in st.graph.data ==> st'.graph.data[v].id == st.graph.data[v].id)
    && (forall v, i :: v in st.graph.data && Replaces(st, nodes, i, v) ==> st'.graph.data[v].properties == nodes[i])
    && (forall v :: v in st.graph.data && (forall i :: !Replaces(st, nodes, i, v)) ==>
          st'.graph.data[v] == st.graph.data[v])
  }

  /** One error for each item with another parent id, in order. */
  ghost function Conflicts(st: State, nodes: seq<Node>): seq<Node>
    requires forall n :: n in nodes ==> Comparable(st, n)
  {
    if nodes == [] then []
    else
      var last := nodes[|nodes| - 1];
      assert last in nodes;
      Conflicts(st, nodes[..|nodes| - 1])
      + if KeepsParent(st, last) then []
        else [map["error" := StrV("Tried to modify parent id of object " + last["id"].s)]]
  }

  /** Nothing is replied if some item cannot be compared; otherwise "ok" if all keep the parent, or
      else the conflicts behind a headline. */
  ghost predicate ReplyMeans(st: State, nodes: seq<Node>, reply: seq<Node>) {
    if exists n :: n in nodes && !Comparable(st, n) then reply == []
    else if forall n :: n in nodes ==> KeepsParent(st, n) then reply == [map["ok" := StrV("true")]]
    else reply == [map["error" := StrV("conflicting updates")]] + Conflicts(st, nodes)
  }

  lemma JudgeMeans(st: State, n: Node)
    ensures Judge(st, n).Thrown? <==> !Comparable(st, n)
    ensures Judge(st, n).Accepted? <==> KeepsParent(st, n)
  {
  }

  lemma {:induction false} RefusalsAreConflicts(st: State, nodes: seq<Node>)
    requires forall n :: n in nodes ==> Comparable(st, n)
    ensures Refusals(st, nodes) == Conflicts(st, nodes)
    ensures Conflicts(st, nodes) == [] <==> forall n :: n in nodes ==> KeepsParent(st, n)
  {
    if nodes != [] {
      var init, last := nodes[..|nodes| - 1], nodes[|nodes| - 1];
      assert last in nodes && nodes == init + [last];
      JudgeMeans(st, last);
      RefusalsAreConflicts(st, init);
    }
  }

  lemma SummaryMeans(st: State, nodes: seq<Node>)
    ensures ReplyMeans(st, nodes, if AnyThrown(st, nodes) then [] else Summary(Refusals(st, nodes)))
  {
    forall n ensures Judge(st, n).Thrown? <==> !Comparable(st, n) { JudgeMeans(st, n); }
    if !AnyThrown(st, nodes) { RefusalsAreConflicts(st, nodes); }
  }

  lemma {:induction false} PerformedPrefix(st: State, nodes: seq<Node>)
    ensures Performed(st, nodes) <= nodes
    ensures forall i :: 0 <= i < |nodes| ==> (LookedAt(st, nodes, i) <==> i < |Performed(st, nodes)|)
  {
    if nodes != [] {
      JudgeMeans(st, nodes[0]);
      PerformedPrefix(st, nodes[1..]);
      assert nodes == [nodes[0]] + nodes[1..];
      forall i | 0 <= i < |nodes| ensures LookedAt(st, nodes, i) <==> i < |Performed(st, nodes)| {
        LookedAtTail(st, nodes, i);
      }
    }
  }

  lemma LookedAtTail(st: State, nodes: seq<Node>, i: nat)
    requires i < |nodes|
    ensures LookedAt(st, nodes, i) <==> Comparable(st, nodes[0]) && (i == 0 || LookedAt(st, nodes[1..], i - 1))
  {
    if i > 0 && Comparable(st, nodes[0]) && LookedAt(st, nodes[1..], i - 1) {
      forall j | 0 <= j <= i ensures Comparable(st, nodes[j]) {
        if j > 0 { assert nodes[1..][j - 1] == nodes[j]; }
      }
    }
    if i > 0 && LookedAt(st, nodes, i) {
      forall j | 0 <= j <= i - 1 ensures Comparable(st, nodes[1..][j]) { assert nodes[1..][j] == nodes[j + 1]; }
    }
  }

  /** The i-th item is the last accepted one for v. */
  ghost predicate LastFor(st: State, nodes: seq<Node>, i: int, v: Vertex) {
    && 0 <= i < |nodes| && KeepsParent(st, nodes[i]) && st.index[nodes[i]["id"].s] == v
    && forall j :: i < j < |nodes| && KeepsParent(st, nodes[j]) ==> st.index[nodes[j]["id"].s] != v
  }

  lemma {:induction false} LastAcceptedIs(st: State, nodes: seq<Node>, v: Vertex)
    requires v in st.graph.data
    ensures forall i :: LastFor(st, nodes, i, v) ==> LastAccepted(st, nodes, v) == nodes[i]
    ensures (forall i :: !LastFor(st, nodes, i, v)) ==> LastAccepted(st, nodes, v) == st.graph.data[v].properties
  {
    if nodes != [] {
      var k := |nodes| - 1;
      var init := nodes[..k];
      JudgeMeans(st, nodes[k]);
      LastAcceptedIs(st, init, v);
      if KeepsParent(st, nodes[k]) && st.index[nodes[k]["id"].s] == v {
        assert LastFor(st, nodes, k, v);
      } else {
        forall i ensures LastFor(st, nodes, i, v) <==> LastFor(st, init, i, v) {
          if LastFor(st, init, i, v) {
            forall j | i < j < |nodes| && KeepsParent(st, nodes[j]) ensures st.index[nodes[j]["id"].s] != v {
              if j < k { assert nodes[j] == init[j]; }
            }
          }
        }
      }
    }
  }

  /** With distinct ids in the index, the same vertex is the same id. */
  lemma ReplacesIsLast(st: State, nodes: seq<Node>, i: int, v: Vertex)
    requires Valid(st)
    ensures Replaces(st, nodes, i, v) <==> LastFor(st, Performed(st, nodes), i, v)
  {
    var done := Performed(st, nodes);
    PerformedPrefix(st, nodes);
    if Replaces(st, nodes, i, v) {
      forall j | i < j < |done| && KeepsParent(st, done[j]) ensures st.index[done[j]["id"].s] != v {
        assert LookedAt(st, nodes, j) && nodes[j] == done[j];
        if st.index[nodes[j]["id"].s] == v { SameVertexSameId(st, nodes[j], nodes[i]); }
      }
    }
    if LastFor(st, done, i, v) {
      forall j | i < j && LookedAt(st, nodes, j) && nodes[j]["id"] == nodes[i]["id"]
        ensures !KeepsParent(st, nodes[j])
      {
        assert done[j] == nodes[j];
      }
    }
  }

  lemma SameVertexSameId(st: State, n: Node, m: Node)
    requires Valid(st) && Comparable(st, n) && Comparable(st, m) && st.index[n["id"].s] == st.index[m["id"].s]
    ensures n["id"] == m["id"]
  {
  }

  lemma UpdateAllMeans(st: State, nodes: seq<Node>)
    requires Valid(st)
    ensures UpdateMeans(st, nodes, UpdateAll(st, nodes))
  {
    var st' := UpdateAll(st, nodes);
    UpdateDecidedInitially(st, nodes);
    forall v | v in st.graph.data
      ensures forall i :: Replaces(st, nodes, i, v) ==> st'.graph.data[v].properties == nodes[i]
      ensures (forall i :: !Replaces(st, nodes, i, v)) ==> st'.graph.data[v] == st.graph.data[v]
    {
      VertexUpdated(st, nodes, v);
    }
  }

  lemma VertexUpdated(st: State, nodes: seq<Node>, v: Vertex)
    requires Valid(st) && v in st.graph.data
    ensures forall i :: Replaces(st, nodes, i, v) ==> LastAccepted(st, Performed(st, nodes), v) == nodes[i]
    ensures (forall i :: !Replaces(st, nodes, i, v)) ==>
              LastAccepted(st, Performed(st, nodes), v) == st.graph.data[v].properties
  {
    LastAcceptedIs(st, Performed(st, nodes), v);
    PerformedPrefix(st, nodes);
    forall i ensures Replaces(st, nodes, i, v) <==> LastFor(st, Performed(st, nodes), i, v) {
      ReplacesIsLast(st, nodes, i, v);
    }
  }
}
