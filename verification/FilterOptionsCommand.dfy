/** The `filteroptions` command: the distinct values of one property over the whole tree. */
module FilterOptionsCommand {
  import opened Values
  import opened Graphs
  import opened Trees
  import opened Filters
  import opened Traversal
  import opened Hierarchy
  import NodesQuery
  import SearchCommand

  // ----- an ordered set of strings ----------------------------------------------------------

  predicate Less(a: string, b: string) {
    if b == "" then false
    else if a == "" then true
    else a[0] < b[0] || (a[0] == b[0] && Less(a[1..], b[1..]))
  }

  /** a is the smaller one at the first difference, which is at i. */
  ghost predicate DiffersAt(a: string, b: string, i: nat) {
    i < |a| && i < |b| && a[..i] == b[..i] && a[i] < b[i]
  }

  /** The alphabetical order: b goes on where a ends, or at the first difference a is smaller. */
  ghost predicate Before(a: string, b: string) {
    a < b || exists i: nat :: DiffersAt(a, b, i)
  }

  lemma DiffersLater(a: string, b: string, i: nat)
    requires a != "" && b != "" && a[0] == b[0]
    ensures DiffersAt(a, b, i) <==> i > 0 && DiffersAt(a[1..], b[1..], i - 1)
  {
    if i > 0 && i < |a| && i < |b| {
      assert a[..i] == [a[0]] + a[1..][..i - 1] && b[..i] == [b[0]] + b[1..][..i - 1];
      if a[..i] == b[..i] { assert a[..i][1..] == b[..i][1..]; }
    }
  }

  lemma DiffersFirst(a: string, b: string, i: nat)
    requires a != "" && b != "" && a[0] != b[0]
    ensures DiffersAt(a, b, i) <==> i == 0 && a[0] < b[0]
  {
    if 0 < i < |a| && i < |b| { assert a[..i][0] == a[0] && b[..i][0] == b[0]; }
  }

  lemma {:induction false} LessIsBefore(a: string, b: string)
    ensures Less(a, b) <==> Before(a, b)
  {
    if a != "" && b != "" {
      if a[0] == b[0] {
        LessIsBefore(a[1..], b[1..]);
        forall i: nat ensures DiffersAt(a, b, i) <==> i > 0 && DiffersAt(a[1..], b[1..], i - 1) {
          DiffersLater(a, b, i);
        }
        if j: nat :| DiffersAt(a[1..], b[1..], j) { assert DiffersAt(a, b, j + 1); }
        assert a == [a[0]] + a[1..] && b == [a[0]] + b[1..];
      } else {
        forall i: nat ensures DiffersAt(a, b, i) <==> i == 0 && a[0] < b[0] { DiffersFirst(a, b, i); }
        if a[0] < b[0] { assert DiffersAt(a, b, 0); }
      }
    }
  }

  ghost predicate Ascending(s: seq<string>) {
    forall i, j :: 0 <= i < j < |s| ==> Less(s[i], s[j])
  }

  /** Inserting into an ordered set; a value already there changes nothing. */
  function Include(s: seq<string>, x: string): seq<string> {
    if s == [] then [x]
    else if s[0] == x then s
    else if Less(x, s[0]) then [x] + s
    else [s[0]] + Include(s[1..], x)
  }

  lemma {:induction false} LessTransitive(a: string, b: string, c: string)
    requires Less(a, b) && Less(b, c)
    ensures Less(a, c)
  {
    if a != "" && a[0] == b[0] == c[0] { LessTransitive(a[1..], b[1..], c[1..]); }
  }

  lemma {:induction false} LessTotal(a: string, b: string)
    ensures a == b || Less(a, b) || Less(b, a)
    ensures !(Less(a, b) && Less(b, a)) && !Less(a, a)
    decreases |a| + |b|
  {
    if a != "" && b != "" && a[0] == b[0] {
      LessTotal(a[1..], b[1..]);
      assert a[1..] == b[1..] ==> a == [a[0]] + b[1..] == b;
    }
    if a != "" { LessIrreflexive(a); }
  }

  lemma {:induction false} LessIrreflexive(a: string)
    ensures !Less(a, a)
  {
    if a != "" { LessIrreflexive(a[1..]); }
  }

  lemma {:induction false} IncludeKeepsOrder(s: seq<string>, x: string)
    requires Ascending(s)
    ensures Ascending(Include(s, x)) && Elements(Include(s, x)) == Elements(s) + {x}
  {
    if s == [] {
    } else if s[0] == x {
    } else if Less(x, s[0]) {
      forall j | 0 < j < |s| ensures Less(x, s[j]) { LessTransitive(x, s[0], s[j]); }
    } else {
      IncludeKeepsOrder(s[1..], x);
      LessTotal(x, s[0]);
      var rest := Include(s[1..], x);
      assert Elements(s) == {s[0]} + Elements(s[1..]);
      forall j | 0 <= j < |rest| ensures Less(s[0], rest[j]) { assert rest[j] in Elements(rest); }
      assert Elements([s[0]] + rest) == {s[0]} + Elements(rest);
    }
  }

  lemma NoElements(s: seq<string>)
    ensures Elements(s) == {} <==> s == []
  {
    if s != [] { assert s[0] in Elements(s); }
  }

  /** An ascending list is determined by what is in it. */
  lemma {:induction false} AscendingUnique(a: seq<string>, b: seq<string>)
    requires Ascending(a) && Ascending(b) && Elements(a) == Elements(b)
    ensures a == b
  {
    NoElements(a);
    NoElements(b);
    if a != [] {
      assert a[0] in Elements(b) && b[0] in Elements(a);
      var i :| 0 <= i < |b| && b[i] == a[0];
      var j :| 0 <= j < |a| && a[j] == b[0];
      LessTotal(a[0], b[0]);
      assert a[0] == b[0];
      forall x ensures x in Elements(a[1..]) <==> x in Elements(b[1..]) {
        if x in a[1..] { LessTotal(x, a[0]); assert x in Elements(a); }
        if x in b[1..] { LessTotal(x, a[0]); assert x in Elements(b); }
      }
      AscendingUnique(a[1..], b[1..]);
    }
  }

  // ----- the values -------------------------------------------------------------------------

  /** The string values of the property among the given vertices. */
  ghost function ValuesIn(key: string, ds: seq<Modelhierarchy>): set<string> {
    set i | 0 <= i < |ds| && StringAt(ds[i].properties, key).Some? :: StringAt(ds[i].properties, key).value
  }

  class FilterOptionsVisitor {
    const option: string
    var valid: seq<string>

    constructor (option: string)
      ensures this.option == option && valid == []
    {
      this.option := option;
      valid := [];
    }

    method DiscoverVertex(ghost v: Vertex, d: Modelhierarchy)
      requires Ascending(valid)
      modifies this
      ensures Ascending(valid)
      ensures Elements(valid) == old(Elements(valid)) + ValuesIn(option, [d])
    {
      if option in d.properties && d.properties[option].StrV? {
        IncludeKeepsOrder(valid, d.properties[option].s);
        valid := Include(valid, d.properties[option].s);
        assert ValuesIn(option, [d]) == {d.properties[option].s} by { assert [d][0] == d; }
      } else {
        assert ValuesIn(option, [d]) == {};
      }
    }
  }

  lemma ValuesConcat(key: string, a: seq<Modelhierarchy>, b: seq<Modelhierarchy>)
    ensures ValuesIn(key, a + b) == ValuesIn(key, a) + ValuesIn(key, b)
  {
    forall x | x in ValuesIn(key, a) ensures x in ValuesIn(key, a + b) {
      var i :| 0 <= i < |a| && StringAt(a[i].properties, key) == Some(x);
      assert (a + b)[i] == a[i];
    }
    forall x | x in ValuesIn(key, b) ensures x in ValuesIn(key, a + b) {
      var i :| 0 <= i < |b| && StringAt(b[i].properties, key) == Some(x);
      assert (a + b)[|a| + i] == b[i];
    }
  }

  ghost predicate Collected(g: Graph, key: string, done: seq<Event>, valid: seq<string>) {
    && (forall v :: v in Discovered(done) ==> v in g.data)
    && Ascending(valid)
    && Elements(valid) == ValuesIn(key, SearchCommand.DataOf(g, Discovered(done)))
  }

  lemma CollectedStep(g: Graph, key: string, done: seq<Event>, e: Event, valid: seq<string>, valid': seq<string>)
    requires Collected(g, key, done, valid) && Ascending(valid') && e.v in g.data
    requires e.DiscoverVertex? ==> e.data == g.data[e.v]
    requires Elements(valid') == Elements(valid) + if e.DiscoverVertex? then ValuesIn(key, [e.data]) else {}
    ensures Collected(g, key, done + [e], valid')
  {
    assert (done + [e])[..|done|] == done;
    if e.DiscoverVertex? {
      SearchCommand.DataOfConcat(g, Discovered(done), [e.v]);
      assert SearchCommand.DataOf(g, [e.v]) == [e.data] by { assert [e.v][..0] == []; }
      ValuesConcat(key, SearchCommand.DataOf(g, Discovered(done)), [e.data]);
    } else {
      assert Discovered(done + [e]) == Discovered(done);
    }
  }

  /** A visit under way that has collected the values of the vertices discovered so far. */
  ghost predicate Collecting(g: Graph, s: Vertex, key: string, d: Search, done: seq<Event>, valid: seq<string>)
    requires IsForest(g) && s in g.data
  {
    Going(g, NO_FILTERS, s, d, done) && Collected(g, key, done, valid)
  }

  lemma CollectStarts(g: Graph, s: Vertex, key: string, valid: seq<string>)
    requires IsForest(g) && s in g.data
    requires Ascending(valid) && Elements(valid) == ValuesIn(key, [g.data[s]])
    ensures Collecting(g, s, key, Begin(g, NO_FILTERS, s), [DiscoverVertex(s, g.data[s])], valid)
  {
    BeginGoing(g, NO_FILTERS, s);
    CollectedFirst(g, s, key, valid);
  }

  lemma CollectedFirst(g: Graph, s: Vertex, key: string, valid: seq<string>)
    requires s in g.data && Ascending(valid) && Elements(valid) == ValuesIn(key, [g.data[s]])
    ensures Collected(g, key, [DiscoverVertex(s, g.data[s])], valid)
  {
    DiscoveredFirst(s, g.data[s]);
    DataOfOne(g, s);
  }

  lemma DiscoveredFirst(s: Vertex, d: Modelhierarchy)
    ensures Discovered([DiscoverVertex(s, d)]) == [s]
  {
    assert [DiscoverVertex(s, d)][..0] == [];
  }

  lemma DataOfOne(g: Graph, s: Vertex)
    requires s in g.data
    ensures SearchCommand.DataOf(g, [s]) == [g.data[s]]
  {
    assert [s][..0] == [];
  }

  lemma CollectContinues(g: Graph, s: Vertex, key: string, d: Search, done: seq<Event>, valid: seq<string>,
                         valid': seq<string>)
    requires IsForest(g) && s in g.data && Collecting(g, s, key, d, done, valid) && d.stack != []
    requires var e := Advance(g, NO_FILTERS, d).0;
             && Ascending(valid')
             && if e.DiscoverVertex? then Elements(valid') == Elements(valid) + ValuesIn(key, [e.data])
                else valid' == valid
    ensures var (e, d') := Advance(g, NO_FILTERS, d); Collecting(g, s, key, d', done + [e], valid')
  {
    AdvanceGoing(g, NO_FILTERS, s, d, done);
    NodesQuery.NextIsVisited(g, NO_FILTERS, s, d, done);
    CollectedStep(g, key, done, Advance(g, NO_FILTERS, d).0, valid, valid');
  }

  lemma CollectAdvances(g: Graph, s: Vertex, key: string, d: Search, done: seq<Event>, valid: seq<string>)
    requires IsForest(g) && s in g.data && Collecting(g, s, key, d, done, valid) && d.stack != []
    ensures StackInTree(g, d.stack) && StackInTree(g, Advance(g, NO_FILTERS, d).1.stack) && Ascending(valid)
    ensures |Pending(g, NO_FILTERS, Advance(g, NO_FILTERS, d).1.stack)| < |Pending(g, NO_FILTERS, d.stack)|
  {
    AdvanceGoing(g, NO_FILTERS, s, d, done);
  }

  method DepthFirstVisit(g: Graph, s: Vertex, visitor: FilterOptionsVisitor)
    requires IsForest(g) && s in g.data && visitor.valid == []
    modifies visitor
    ensures Ascending(visitor.valid)
    ensures Elements(visitor.valid) == ValuesIn(visitor.option, SearchCommand.PreorderData(TreeOf(g, s)))
  {
    ghost var key := visitor.option;
    var d := Begin(g, NO_FILTERS, s);
    ghost var done := [DiscoverVertex(s, g.data[s])];
    visitor.DiscoverVertex(s, g.data[s]);
    CollectStarts(g, s, key, visitor.valid);
    while d.stack != []
      invariant Collecting(g, s, key, d, done, visitor.valid)
      decreases |Pending(g, NO_FILTERS, d.stack)|
    {
      CollectAdvances(g, s, key, d, done, visitor.valid);
      var (e, next) := Advance(g, NO_FILTERS, d);
      ghost var before := visitor.valid;
      if e.DiscoverVertex? {
        visitor.DiscoverVertex(e.v, e.data);
      }
      CollectContinues(g, s, key, d, done, before, visitor.valid);
      done := done + [e];
      d := next;
    }
    CollectedAll(g, s, key, d, done, visitor.valid);
  }

  lemma CollectedAll(g: Graph, s: Vertex, key: string, d: Search, done: seq<Event>, valid: seq<string>)
    requires IsForest(g) && s in g.data && Going(g, NO_FILTERS, s, d, done) && d.stack == []
    requires Collected(g, key, done, valid)
    ensures Elements(valid) == ValuesIn(key, SearchCommand.PreorderData(TreeOf(g, s)))
  {
    var t := TreeOf(g, s);
    assert done + [] == done;
    NoFiltersPruneNothing(t);
    EventsDiscoverPreorder(t);
    NodesQuery.VisitedLabelled(g, NO_FILTERS, s);
    SearchCommand.PreorderHasData(g, t);
  }

  ghost predicate HoldsValue(g: Graph, v: Vertex, key: string, x: string) {
    v in g.data && key in g.data[v].properties && g.data[v].properties[key] == StrV(x)
  }

  /** Some vertex of the tree has the value under the key. */
  ghost predicate IsOption(g: Graph, s: Vertex, key: string, x: string)
    requires IsForest(g)
  {
    exists v :: v in g.data && Under(g, s, v) && HoldsValue(g, v, key, x)
  }

  /** The list holds, in alphabetical order, what the vertices of the tree have under the key. */
  ghost predicate OptionsAre(g: Graph, s: Vertex, key: string, ids: seq<string>)
    requires IsForest(g)
  {
    && (forall i, j :: 0 <= i < j < |ids| ==> Before(ids[i], ids[j]))
    && forall x :: x in ids <==> IsOption(g, s, key, x)
  }

  lemma ValueAmong(g: Graph, vs: seq<Vertex>, ds: seq<Modelhierarchy>, key: string, x: string)
    requires |ds| == |vs| && forall i :: 0 <= i < |vs| ==> vs[i] in g.data && ds[i] == g.data[vs[i]]
    ensures x in ValuesIn(key, ds) <==> exists v :: v in vs && HoldsValue(g, v, key, x)
  {
    if x in ValuesIn(key, ds) {
      var i :| 0 <= i < |ds| && StringAt(ds[i].properties, key) == Some(x);
      assert vs[i] in vs && HoldsValue(g, vs[i], key, x);
    }
    if v :| v in vs && HoldsValue(g, v, key, x) {
      var i :| 0 <= i < |vs| && vs[i] == v;
      assert StringAt(ds[i].properties, key) == Some(x);
    }
  }

  lemma ValueIsOption(g: Graph, s: Vertex, key: string, x: string)
    requires IsForest(g) && s in g.data
    ensures x in ValuesIn(key, SearchCommand.PreorderData(TreeOf(g, s))) <==> IsOption(g, s, key, x)
  {
    var order := Preorder(TreeOf(g, s));
    SearchCommand.PreorderIsSubtree(g, s);
    DataAt(g, order);
    ValueAmong(g, order, SearchCommand.DataOf(g, order), key, x);
  }

  lemma ValuesAreOptions(g: Graph, s: Vertex, key: string, ids: seq<string>)
    requires IsForest(g) && s in g.data && Ascending(ids)
    requires Elements(ids) == ValuesIn(key, SearchCommand.PreorderData(TreeOf(g, s)))
    ensures OptionsAre(g, s, key, ids)
  {
    forall i, j | 0 <= i < j < |ids| ensures Before(ids[i], ids[j]) { LessIsBefore(ids[i], ids[j]); }
    forall x ensures x in ids <==> IsOption(g, s, key, x) {
      ValueIsOption(g, s, key, x);
      assert x in ids <==> x in Elements(ids);
    }
  }

  lemma {:induction false} DataAt(g: Graph, vs: seq<Vertex>)
    requires forall v :: v in vs ==> v in g.data
    ensures |SearchCommand.DataOf(g, vs)| == |vs|
    ensures forall i :: 0 <= i < |vs| ==> vs[i] in g.data && SearchCommand.DataOf(g, vs)[i] == g.data[vs[i]]
  {
    if vs != [] { DataAt(g, vs[..|vs| - 1]); }
  }

  /** Under the key "<type>_ids": the distinct values found from the root, in ascending order. A
      type that is missing or no string throws, and the command then replies with nothing. */
  method ProcessRequest(h: TagHierarchy, command: Node) returns (reply: seq<Node>)
    requires Valid(h.View())
    ensures h.root.None? ==> reply == [map["error" := StrV("empty")]]
    ensures h.root.Some? && StringAt(command, "type").None? ==> reply == []
    ensures h.root.Some? && StringAt(command, "type").Some? ==>
              var key := command["type"].s;
              exists ids :: && reply == [map[key + "_ids" := StrsV(ids)]] && Ascending(ids)
                            && Elements(ids) == ValuesIn(key, SearchCommand.PreorderData(TreeOf(h.graph, h.root.value)))
                            && OptionsAre(h.graph, h.root.value, key, ids)
  {
    if h.root.None? {
      return [map["error" := StrV("empty")]];
    }
    if StringAt(command, "type").None? {
      return [];
    }
    var visitor := new FilterOptionsVisitor(command["type"].s);
    DepthFirstVisit(h.graph, h.root.value, visitor);
    ValuesAreOptions(h.graph, h.root.value, visitor.option, visitor.valid);
    reply := [map[command["type"].s + "_ids" := StrsV(visitor.valid)]];
  }
}
