/** Runs of commands against one hierarchy. */
module Runs {
  import opened Values
  import opened Hierarchy
  import opened Archives
  import opened Removal
  import PopulateCommand
  import UpdateCommand
  import DeleteCommand
  import DeleteProperties
  import RoundTrip

  datatype Command =
    | Populate(settings: Node, nodes: seq<Node>)
    | Update(items: seq<Node>)
    | Delete(ids: seq<string>)
    | Flush
    | Restore(archive: Archive)

  /** An archive that some valid hierarchy was stored as. */
  ghost predicate Complete(a: Archive) {
    exists st :: Valid(st) && a == Encode(st.graph)
  }

  /** What the commands rely on without checking it. */
  ghost predicate Allowed(st: State, c: Command) {
    match c
    case Populate(settings, nodes) => PopulateCommand.Admissible(st, settings, nodes)
    case Update(_) => true
    case Delete(ids) => !("root" in ids && "root" in st.index)
    case Flush => true
    case Restore(a) => Complete(a)
  }

  /** What the commands rely on is no more than the invariant needs: `update` and `flush` rely on
      nothing, any stored hierarchy may be restored, and a batch to delete, or one to insert under
      a root that is there once, is allowed exactly when it leaves a valid state. */
  lemma AllowedExactly(st: State, c: Command)
    requires Valid(st)
    ensures c.Update? || c.Flush? ==> Allowed(st, c)
    ensures c.Delete? ==> (Allowed(st, c) <==> Valid(DeleteAll(st, c.ids)))
    ensures forall stored :: Valid(stored) && c == Restore(Encode(stored.graph)) ==> Allowed(st, c)
    ensures c.Populate? && PopulateCommand.SettingsTyped(c.settings) && PopulateCommand.HaveIds(c.nodes)
            && (PopulateCommand.WantsRoot(c.settings) <==> st.root.None?) ==>
              (Allowed(st, c) <==> Valid(PopulateCommand.InsertAll(PopulateCommand.Started(st, c.settings), c.nodes)))
  {
    match c
    case Populate(settings, nodes) =>
      if PopulateCommand.SettingsTyped(settings) && PopulateCommand.HaveIds(nodes)
         && (PopulateCommand.WantsRoot(settings) <==> st.root.None?) {
        if PopulateCommand.WantsRoot(settings) { PopulateCommand.AddRootValid(st); }
        PopulateCommand.PopulateKeepsValid(PopulateCommand.Started(st, settings), nodes);
      }
    case Delete(ids) => DeleteProperties.DeleteKeepsValid(st, ids);
    case _ =>
  }

  /** The state each command leaves, as its method is proved to leave it. */
  ghost function After(st: State, c: Command): State
    requires Valid(st) && Allowed(st, c)
  {
    match c
    case Populate(settings, nodes) => PopulateCommand.InsertAll(PopulateCommand.Started(st, settings), nodes)
    case Update(items) => UpdateCommand.UpdateAll(st, items)
    case Delete(ids) => DeleteAll(st, ids)
    case Flush => CLEARED
    case Restore(a) => Decode(a)
  }

  lemma CommandKeepsValid(st: State, c: Command)
    requires Valid(st) && Allowed(st, c)
    ensures Valid(After(st, c))
  {
    match c
    case Populate(settings, nodes) =>
      if PopulateCommand.WantsRoot(settings) { PopulateCommand.AddRootValid(st); }
      PopulateCommand.InsertAllValid(PopulateCommand.Started(st, settings), nodes);
    case Update(items) => UpdateCommand.UpdateAllKeepsValid(st, items);
    case Delete(ids) => DeleteProperties.DeleteKeepsValid(st, ids);
    case Flush =>
    case Restore(a) =>
      var stored :| Valid(stored) && a == Encode(stored.graph);
      RoundTrip.RestoredValid(stored);
  }

  /** What a command does, read off the state before it. */
  ghost predicate Effect(st: State, c: Command, st': State)
    requires Valid(st)
  {
    match c
    case Populate(settings, nodes) => PopulateCommand.BatchMeans(st, settings, nodes, st')
    case Update(items) => UpdateCommand.UpdateMeans(st, items, st')
    case Delete(ids) => DeleteProperties.OnlyListedGone(st, ids, st')
    case Flush => st'.graph.data == map[] && st'.graph.edges == [] && st'.index == map[] && st'.root == None
    case Restore(a) => Describes(a, st'.graph) && NamesEntries(a, st')
  }

  lemma AfterHasEffect(st: State, c: Command)
    requires Valid(st) && Allowed(st, c)
    ensures Effect(st, c, After(st, c))
  {
    match c
    case Populate(settings, nodes) =>
      PopulateCommand.InsertedMeans(st, settings, nodes, After(st, c));
    case Update(items) => UpdateCommand.UpdateAllMeans(st, items);
    case Delete(ids) => DeleteProperties.SurvivorsKeepData(st, ids);
    case Flush =>
    case Restore(a) =>
      CompleteWellFormed(a);
      DecodeDescribed(a);
      DecodeNames(a);
  }

  lemma CompleteWellFormed(a: Archive)
    requires Complete(a)
    ensures WellFormed(a)
  {
    var stored :| Valid(stored) && a == Encode(stored.graph);
    RoundTrip.EncodeIds(stored);
  }

  /** The commands by their own methods. */
  method Handle(h: TagHierarchy, c: Command) returns (reply: seq<Node>)
    requires Valid(h.View()) && Allowed(h.View(), c)
    modifies h
    ensures h.View() == After(old(h.View()), c) && Effect(old(h.View()), c, h.View())
  {
    AfterHasEffect(h.View(), c);
    match c {
      case Populate(settings, nodes) =>
        PopulateCommand.StartedValid(h.View(), settings, nodes);
        reply := PopulateCommand.ProcessRequest(h, settings, nodes);
      case Update(items) => reply := UpdateCommand.ProcessRequest(h, items);
      case Delete(ids) => reply := DeleteCommand.ProcessRequest(h, map["nodes" := StrsV(ids)]);
      case Flush =>
        h.ClearGraph();
        reply := [map["success" := StrV("hierarchy flushed")]];
      case Restore(a) =>
        CompleteWellFormed(a);
        reply := Archives.Restore(h, a);
    }
  }

  /** Any populated hierarchy can be brought into the one bad case: store it, restore it, delete
      "root". */
  lemma RestoredRootDeleted(st: State)
    requires Valid(st) && st.root.Some?
    ensures Valid(RoundTrip.Restored(st)) && !Valid(DeleteAll(RoundTrip.Restored(st), ["root"]))
  {
    RoundTrip.RestoredValid(st);
    RoundTrip.RestoredIndex(st);
    assert "root" in RoundTrip.Restored(st).index;
    DeleteProperties.DeleteKeepsValid(RoundTrip.Restored(st), ["root"]);
  }

  /** The states a sequence of commands passes through, each one allowed where it is given. */
  ghost predicate IsRun(cs: seq<Command>, sts: seq<State>) {
    && |sts| == |cs| + 1
    && sts[0] == CLEARED
    && forall i {:trigger cs[i]} :: 0 <= i < |cs| ==> Follows(sts[i], cs[i], sts[i + 1])
  }

  /** One command; that the state it starts from is valid is proved, not demanded. */
  ghost predicate Follows(st: State, c: Command, st': State) {
    Valid(st) ==> Allowed(st, c) && st' == After(st, c)
  }

  lemma FollowsValid(st: State, c: Command, st': State)
    requires Valid(st) && Follows(st, c, st')
    ensures Valid(st')
  {
    CommandKeepsValid(st, c);
  }

  lemma {:induction false} RunStaysValid(cs: seq<Command>, sts: seq<State>, k: nat)
    requires IsRun(cs, sts) && k <= |cs|
    ensures Valid(sts[k])
  {
    if k > 0 {
      RunStaysValid(cs, sts, k - 1);
      FollowsValid(sts[k - 1], cs[k - 1], sts[k]);
    }
  }

  /** Every step of every run does what its command is for. */
  lemma RunStepsHaveEffect(cs: seq<Command>, sts: seq<State>, k: nat)
    requires IsRun(cs, sts) && k < |cs|
    ensures Valid(sts[k]) && Effect(sts[k], cs[k], sts[k + 1])
  {
    RunStaysValid(cs, sts, k);
    FollowsHasEffect(sts[k], cs[k], sts[k + 1]);
  }

  lemma FollowsHasEffect(st: State, c: Command, st': State)
    requires Valid(st) && Follows(st, c, st')
    ensures Effect(st, c, st')
  {
    AfterHasEffect(st, c);
  }

  /** In every state of every run each edge joins two live vertices and points forward in the
      vertex list, no vertex has two in-edges, the root has none, and the index is exact. */
  lemma RunKeepsShape(cs: seq<Command>, sts: seq<State>, k: nat)
    requires IsRun(cs, sts) && k <= |cs|
    ensures var st := sts[k]; var g := st.graph;
            && (forall e :: e in g.edges ==>
                  && e.source in g.order && e.target in g.order
                  && Position(g.order, e.source) < Position(g.order, e.target) < |g.order|)
            && (forall i, j :: 0 <= i < j < |g.edges| ==> g.edges[i].target != g.edges[j].target)
            && (forall e :: e in g.edges ==> st.root != Some(e.target))
            && (forall id, v :: id in st.index && st.index[id] == v ==> v in g.data && g.data[v].id == id)
            && (forall v :: v in g.data && st.root != Some(v) ==>
                  g.data[v].id in st.index && st.index[g.data[v].id] == v)
  {
    RunStaysValid(cs, sts, k);
    var g := sts[k].graph;
    forall e | e in g.edges
      ensures e.source in g.order && e.target in g.order
      ensures Position(g.order, e.source) < Position(g.order, e.target) < |g.order|
    {
      RoundTrip.PositionsAscend(g, e.source, e.target);
      RoundTrip.PositionsAscend(g, e.target, e.source);
    }
  }
}
