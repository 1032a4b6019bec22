/** The state the commands share: the graph, the index from ids to vertices, and the root. */
module Hierarchy {
  import opened Values
  import opened Graphs

  /** `root` is None where the program stores its largest-value sentinel. */
  datatype State = State(graph: Graph, index: map<string, Vertex>, root: Option<Vertex>)

  const CLEARED := State(EMPTY, map[], None)

  ghost predicate UniqueIds(g: Graph) {
    forall v, w :: v in g.data && w in g.data && g.data[v].id == g.data[w].id ==> v == w
  }

  /** The graph is a forest whose vertices have distinct ids, and the index agrees with it: each
      entry names the live vertex that bears the id, and every live vertex not called "root" is
      indexed. */
  ghost predicate Indexed(st: State) {
    && IsForest(st.graph)
    && UniqueIds(st.graph)
    && (forall id :: id in st.index ==>
          st.index[id] in st.graph.data && st.graph.data[st.index[id]].id == id)
    && (forall v :: v in st.graph.data && st.graph.data[v].id != "root" ==>
          st.graph.data[v].id in st.index && st.index[st.graph.data[v].id] == v)
  }

  /** The root, when there is one, is the live vertex called "root" and has no in-edge. */
  ghost predicate Rooted(st: State) {
    && (st.root.Some? ==>
          && st.root.value in st.graph.data
          && st.graph.data[st.root.value].id == "root"
          && forall e :: e in st.graph.edges ==> e.target != st.root.value)
    && (forall v :: v in st.graph.data && st.graph.data[v].id == "root" ==> st.root == Some(v))
  }

  ghost predicate Valid(st: State) {
    Indexed(st) && Rooted(st)
  }

  class TagHierarchy {
    var graph: Graph
    var vertices: map<string, Vertex>
    var root: Option<Vertex>

    function View(): State
      reads this
    {
      State(graph, vertices, root)
    }

    constructor ()
      ensures View() == CLEARED
    {
      graph, vertices, root := EMPTY, map[], None;
    }

    method ClearGraph()
      modifies this
      ensures View() == CLEARED
    {
      graph := EMPTY;
      vertices := map[];
      root := None;
    }

    /** Healthy means that a root has been recorded, and in a valid state that there is a live
        vertex called "root"; an error is reported exactly when not healthy. */
    method HealthCheck() returns (reply: seq<Node>)
      ensures |reply| == 1 && ("error" in reply[0] <==> !FlagAt(reply[0], "ok"))
      ensures Valid(View()) ==>
                (FlagAt(reply[0], "ok") <==> exists v :: v in graph.data && graph.data[v].id == "root")
      ensures reply == [if root.None? then map["ok" := BoolV(false), "error" := StrV("Cache not populated")]
                        else map["ok" := BoolV(true)]]
    {
      if root.None? {
        return [map["ok" := BoolV(false), "error" := StrV("Cache not populated")]];
      }
      reply := [map["ok" := BoolV(true)]];
    }
  }
}
