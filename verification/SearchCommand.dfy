/** The `search` command: a traversal from the root that collects hits and stops early. */
module SearchCommand {
  import opened Values
  import opened Graphs
  import opened Trees
  import opened Filters
  import opened Traversal
  import opened Hierarchy
  import NodesQuery

  // ----- searchers --------------------------------------------------------------------------

  datatype Searcher = Partial(term: string) | Regex(term: string) | Exact(term: string)

  /** The term stands at the front of the text or further on. */
  predicate Occurs(term: string, text: string) {
    term <= text || (text != "" && Occurs(term, text[1..]))
  }

  /** The substring searcher reports nothing in an empty text, not even an empty term. The
      regular-expression engine is the parameter `regex`. */
  predicate HasTerm(regex: (string, string) -> bool, s: Searcher, text: string) {
    match s
    case Partial(term) => text != "" && Occurs(term, text)
    case Regex(term) => regex(term, text)
    case Exact(term) => term == text
  }

  lemma {:induction false} OccursMeansSubstring(term: string, text: string)
    ensures Occurs(term, text) <==> exists before, after :: text == before + term + after
  {
    if Occurs(term, text) {
      if term <= text {
        assert text == "" + term + text[|term|..];
      } else {
        OccursMeansSubstring(term, text[1..]);
        var before, after :| text[1..] == before + term + after;
        assert text == ([text[0]] + before) + term + after;
      }
    }
    if before: string, after: string :| text == before + term + after {
      if before != "" {
        assert text[1..] == before[1..] + term + after;
        OccursMeansSubstring(term, text[1..]);
      }
    }
  }

  function GetSearcher(command: Node): Option<Searcher>
    requires "search_term" in command && command["search_term"].StrV?
    requires "search_algorithm" in command ==> command["search_algorithm"].StrV?
  {
    var term := command["search_term"].s;
    var algorithm := if "search_algorithm" in command then command["search_algorithm"].s else "partial";
    if algorithm == "partial" then Some(Partial(term))
    else if algorithm == "regex" then Some(Regex(term))
    else if algorithm == "exact" then Some(Exact(term))
    else None
  }

  /** Some searched property holds the term. */
  predicate Matches(regex: (string, string) -> bool, s: Searcher, keys: seq<string>, n: Node) {
    exists k :: k in keys && StringAt(n, k).Some? && HasTerm(regex, s, StringAt(n, k).value)
  }

  // ----- what is found ----------------------------------------------------------------------

  datatype Query = Query(searcher: Searcher, keys: seq<string>, max: int)

  function Matching(regex: (string, string) -> bool, q: Query, ds: seq<Modelhierarchy>): seq<Node> {
    if ds == [] then []
    else
      Matching(regex, q, ds[..|ds| - 1])
      + if Matches(regex, q.searcher, q.keys, ds[|ds| - 1].properties) then [ds[|ds| - 1].properties] else []
  }

  function AtMost<T>(n: int, s: seq<T>): seq<T> {
    if n <= 0 then [] else if n <= |s| then s[..n] else s
  }

  ghost function PreorderData(t: Tree): seq<Modelhierarchy> {
    [t.data] + ForestPreorderData(t.kids)
  }

  ghost function ForestPreorderData(ts: Forest): seq<Modelhierarchy> {
    match ts
    case Nil => []
    case Cons(h, rest) => PreorderData(h) + ForestPreorderData(rest)
  }

  /** The simple search: test every vertex in pre-order, then cut the list. */
  ghost function Found(regex: (string, string) -> bool, q: Query, t: Tree): seq<Node> {
    AtMost(q.max, Matching(regex, q, PreorderData(t)))
  }

  lemma {:induction false} MatchingPrefix(regex: (string, string) -> bool, q: Query, a: seq<Modelhierarchy>,
        b: seq<Modelhierarchy>)
    ensures Matching(regex, q, a) <= Matching(regex, q, a + b)
  {
    if b == [] {
      assert a + b == a;
    } else {
      MatchingPrefix(regex, q, a, b[..|b| - 1]);
      assert (a + b)[..|a + b| - 1] == a + b[..|b| - 1];
    }
  }

  function DataOf(g: Graph, vs: seq<Vertex>): seq<Modelhierarchy>
    requires forall v :: v in vs ==> v in g.data
  {
    if vs == [] then [] else DataOf(g, vs[..|vs| - 1]) + [g.data[vs[|vs| - 1]]]
  }

  lemma {:induction false} DataOfConcat(g: Graph, a: seq<Vertex>, b: seq<Vertex>)
    requires forall v :: v in a ==> v in g.data
    requires forall v :: v in b ==> v in g.data
    ensures forall v :: v in a + b ==> v in g.data
    ensures DataOf(g, a + b) == DataOf(g, a) + DataOf(g, b)
  {
    if b == [] {
      assert a + b == a;
    } else {
      DataOfConcat(g, a, b[..|b| - 1]);
      assert (a + b)[..|a + b| - 1] == a + b[..|b| - 1];
    }
  }

  lemma {:induction false} PreorderHasData(g: Graph, t: Tree)
    requires NodesQuery.Labelled(g, t)
    ensures forall v :: v in Preorder(t) ==> v in g.data
    ensures DataOf(g, Preorder(t)) == PreorderData(t)
  {
    ForestPreorderHasData(g, t.kids);
    DataOfConcat(g, [t.v], ForestPreorder(t.kids));
    assert [t.v][..0] == [];
  }

  lemma {:induction false} ForestPreorderHasData(g: Graph, ts: Forest)
    requires NodesQuery.ForestLabelled(g, ts)
    ensures forall v :: v in ForestPreorder(ts) ==> v in g.data
    ensures DataOf(g, ForestPreorder(ts)) == ForestPreorderData(ts)
  {
    match ts
    case Nil =>
    case Cons(h, rest) =>
      PreorderHasData(g, h);
      ForestPreorderHasData(g, rest);
      DataOfConcat(g, Preorder(h), ForestPreorder(rest));
  }

  // ----- the visitor ------------------------------------------------------------------------

  class SearchVisitor {
    const regex: (string, string) -> bool
    const query: Query
    var hits: seq<Vertex>
    var noResults: nat

    constructor (regex: (string, string) -> bool, query: Query)
      ensures this.regex == regex && this.query == query && hits == [] && noResults == 0
    {
      this.regex, this.query := regex, query;
      hits, noResults := [], 0;
    }

    /** `stop` is the exception that ends the traversal; it is raised before v is looked at. */
    method DiscoverVertex(v: Vertex, d: Modelhierarchy) returns (stop: bool)
      requires noResults == |hits|
      modifies this
      ensures noResults == |hits|
      ensures stop <==> old(noResults) >= query.max
      ensures stop ==> hits == old(hits)
      ensures !stop ==> hits == old(hits) + if Matches(regex, query.searcher, query.keys, d.properties) then [v] else []
    {
      if noResults >= query.max {
        return true;
      }
      var corpi: seq<string> := [];
      for i := 0 to |query.keys|
        invariant hits == old(hits) && noResults == old(noResults)
        invariant forall t :: t in corpi <==>
                    exists k :: k in query.keys[..i] && StringAt(d.properties, k) == Some(t)
      {
        var key := query.keys[i];
        ghost var seen, seen' := query.keys[..i], query.keys[..i + 1];
        assert seen' == seen + [key];
        ghost var before := corpi;
        if key in d.properties && d.properties[key].StrV? {
          corpi := corpi + [d.properties[key].s];
        }
        CollectKey(d.properties, seen, key, before, corpi);
      }
      assert query.keys[..|query.keys|] == query.keys;
      var hasMatch := false;
      for i := 0 to |corpi|
        invariant hits == old(hits) && noResults == old(noResults)
        invariant hasMatch <==> exists t :: t in corpi[..i] && HasTerm(regex, query.searcher, t)
      {
        assert corpi[..i + 1] == corpi[..i] + [corpi[i]];
        hasMatch := hasMatch || HasTerm(regex, query.searcher, corpi[i]);
      }
      assert corpi[..|corpi|] == corpi;
      AnyText(regex, query, d.properties, corpi);
      if hasMatch {
        hits := hits + [v];
        noResults := noResults + 1;
      } else {
        assert hits == old(hits) + [];
      }
      stop := false;
    }
  }

  lemma CollectKey(n: Node, seen: seq<string>, key: string, before: seq<string>, after: seq<string>)
    requires forall t :: t in before <==> exists k :: k in seen && StringAt(n, k) == Some(t)
    requires after == before + match StringAt(n, key) case Some(t) => [t] case None => []
    ensures forall t :: t in after <==> exists k :: k in seen + [key] && StringAt(n, k) == Some(t)
  {
    forall t ensures t in after <==> exists k :: k in seen + [key] && StringAt(n, k) == Some(t) {
      assert key in seen + [key];
      if t in before {
        var k :| k in seen && StringAt(n, k) == Some(t);
        assert k in seen + [key];
      }
    }
  }

  lemma AnyText(regex: (string, string) -> bool, q: Query, n: Node, texts: seq<string>)
    requires forall t :: t in texts <==> exists k :: k in q.keys && StringAt(n, k) == Some(t)
    ensures (exists t :: t in texts && HasTerm(regex, q.searcher, t)) <==> Matches(regex, q.searcher, q.keys, n)
  {
    if t :| t in texts && HasTerm(regex, q.searcher, t) {
      var k :| k in q.keys && StringAt(n, k) == Some(t);
    }
    if Matches(regex, q.searcher, q.keys, n) {
      var k :| k in q.keys && StringAt(n, k).Some? && HasTerm(regex, q.searcher, StringAt(n, k).value);
      assert StringAt(n, k).value in texts;
    }
  }

  // ----- the traversal and the command ------------------------------------------------------

  function PropertiesOf(g: Graph, vs: seq<Vertex>): seq<Node>
    requires forall v :: v in vs ==> v in g.data
  {
    if vs == [] then [] else PropertiesOf(g, vs[..|vs| - 1]) + [g.data[vs[|vs| - 1]].properties]
  }

  /** The hits are the matches among the vertices looked at, a prefix of the pre-order; the
      prefix is everything unless the limit has been reached. */
  ghost predicate HitsAre(regex: (string, string) -> bool, q: Query, g: Graph, looked: seq<Vertex>, hits: seq<Vertex>) {
    && (forall v :: v in looked ==> v in g.data)
    && (forall v :: v in hits ==> v in g.data)
    && PropertiesOf(g, hits) == Matching(regex, q, DataOf(g, looked))
    && (q.max > 0 ==> |hits| <= q.max) && (q.max <= 0 ==> hits == [])
  }

  lemma {:induction false} PropertiesLength(g: Graph, vs: seq<Vertex>)
    requires forall v :: v in vs ==> v in g.data
    ensures |PropertiesOf(g, vs)| == |vs|
  {
    if vs != [] { PropertiesLength(g, vs[..|vs| - 1]); }
  }

  lemma LookedAt(regex: (string, string) -> bool, q: Query, g: Graph, looked: seq<Vertex>, hits: seq<Vertex>, v: Vertex)
    requires HitsAre(regex, q, g, looked, hits) && v in g.data && |hits| < q.max
    ensures HitsAre(regex, q, g, looked + [v],
                    hits + if Matches(regex, q.searcher, q.keys, g.data[v].properties) then [v] else [])
  {
    assert (looked + [v])[..|looked|] == looked;
    assert (hits + [v])[..|hits|] == hits;
    assert hits + [] == hits;
    var ds := DataOf(g, looked + [v]);
    assert ds[..|ds| - 1] == DataOf(g, looked) && ds[|ds| - 1] == g.data[v];
  }

  /** Stopping by exception never changes, drops or adds a hit. */
  lemma HitsAreFound(regex: (string, string) -> bool, q: Query, g: Graph, t: Tree, looked: seq<Vertex>,
        rest: seq<Vertex>, hits: seq<Vertex>)
    requires NodesQuery.Labelled(g, t) && Preorder(t) == looked + rest
    requires HitsAre(regex, q, g, looked, hits) && (rest == [] || |hits| >= q.max)
    ensures PropertiesOf(g, hits) == Found(regex, q, t)
  {
    PreorderHasData(g, t);
    forall v | v in rest ensures v in g.data { assert v in Preorder(t); }
    DataOfConcat(g, looked, rest);
    PropertiesLength(g, hits);
    CutOff(regex, q, DataOf(g, looked), DataOf(g, rest), PropertiesOf(g, hits));
  }

  lemma CutOff(regex: (string, string) -> bool, q: Query, looked: seq<Modelhierarchy>,
        rest: seq<Modelhierarchy>, found: seq<Node>)
    requires found == Matching(regex, q, looked) && (q.max > 0 ==> |found| <= q.max) && (q.max <= 0 ==> found == [])
    requires rest == [] || |found| >= q.max
    ensures found == AtMost(q.max, Matching(regex, q, looked + rest))
  {
    MatchingPrefix(regex, q, looked, rest);
    if rest == [] { assert looked + rest == looked; }
  }

  /** The traversal is under way, or has been stopped with the limit reached. */
  ghost predicate Searching(regex: (string, string) -> bool, q: Query, g: Graph, s: Vertex,
                            d: Search, done: seq<Event>, looked: seq<Vertex>, hits: seq<Vertex>, stop: bool)
    requires IsForest(g) && s in g.data
  {
    && Going(g, NO_FILTERS, s, d, done)
    && HitsAre(regex, q, g, looked, hits)
    && if stop then |hits| >= q.max && looked <= Discovered(done) else looked == Discovered(done)
  }

  lemma SearchStarts(regex: (string, string) -> bool, q: Query, g: Graph, s: Vertex)
    requires IsForest(g) && s in g.data
    ensures var d, done := Begin(g, NO_FILTERS, s), [DiscoverVertex(s, g.data[s])];
            if 0 >= q.max then Searching(regex, q, g, s, d, done, [], [], true)
            else Searching(regex, q, g, s, d, done, [s],
                           [] + if Matches(regex, q.searcher, q.keys, g.data[s].properties) then [s] else [], false)
  {
    BeginGoing(g, NO_FILTERS, s);
    var done := [DiscoverVertex(s, g.data[s])];
    assert Discovered(done) == [s] by { assert done[..0] == []; }
    if 0 < q.max {
      LookedAt(regex, q, g, [], [], s);
      assert [] + [s] == [s];
    }
  }

  lemma SearchContinues(regex: (string, string) -> bool, q: Query, g: Graph, s: Vertex,
                        d: Search, done: seq<Event>, looked: seq<Vertex>, hits: seq<Vertex>)
    requires IsForest(g) && s in g.data && Searching(regex, q, g, s, d, done, looked, hits, false) && d.stack != []
    ensures var (e, d') := Advance(g, NO_FILTERS, d);
            && StackInTree(g, d'.stack)
            && |Pending(g, NO_FILTERS, d'.stack)| < |Pending(g, NO_FILTERS, d.stack)|
            && if !e.DiscoverVertex? then Searching(regex, q, g, s, d', done + [e], looked, hits, false)
               else if |hits| >= q.max then Searching(regex, q, g, s, d', done + [e], looked, hits, true)
               else
                 && e.v in g.data && e.data == g.data[e.v]
                 && Searching(regex, q, g, s, d', done + [e], looked + [e.v],
                              hits + if Matches(regex, q.searcher, q.keys, e.data.properties) then [e.v] else [], false)
  {
    AdvanceGoing(g, NO_FILTERS, s, d, done);
    NodesQuery.NextIsVisited(g, NO_FILTERS, s, d, done);
    var e := Advance(g, NO_FILTERS, d).0;
    assert (done + [e])[..|done|] == done;
    assert Discovered(done + [e]) == Discovered(done) + if e.DiscoverVertex? then [e.v] else [];
    if e.DiscoverVertex? && |hits| < q.max { LookedAt(regex, q, g, looked, hits, e.v); }
  }

  lemma SearchEnds(regex: (string, string) -> bool, q: Query, g: Graph, s: Vertex,
                   d: Search, done: seq<Event>, looked: seq<Vertex>, hits: seq<Vertex>, stop: bool)
    requires IsForest(g) && s in g.data && Searching(regex, q, g, s, d, done, looked, hits, stop)
    requires d.stack == [] || stop
    ensures PropertiesOf(g, hits) == Found(regex, q, TreeOf(g, s))
  {
    var t, after := VisitedTree(g, NO_FILTERS, s), Pending(g, NO_FILTERS, d.stack);
    NoFiltersPruneNothing(TreeOf(g, s));
    NodesQuery.VisitedLabelled(g, NO_FILTERS, s);
    DiscoveredConcat(done, after);
    EventsDiscoverPreorder(t);
    var rest := Preorder(t)[|looked|..];
    assert looked <= Preorder(t) && Preorder(t) == looked + rest;
    HitsAreFound(regex, q, g, t, looked, rest, hits);
  }

  method DepthFirstVisit(g: Graph, s: Vertex, visitor: SearchVisitor)
    requires IsForest(g) && s in g.data && visitor.hits == [] && visitor.noResults == 0
    modifies visitor
    ensures forall v :: v in visitor.hits ==> v in g.data
    ensures PropertiesOf(g, visitor.hits) == Found(visitor.regex, visitor.query, TreeOf(g, s))
  {
    ghost var regex, q := visitor.regex, visitor.query;
    SearchStarts(regex, q, g, s);
    var stop := visitor.DiscoverVertex(s, g.data[s]);
    var d := Begin(g, NO_FILTERS, s);
    ghost var done := [DiscoverVertex(s, g.data[s])];
    ghost var looked := if stop then [] else [s];
    while d.stack != [] && !stop
      invariant visitor.noResults == |visitor.hits|
      invariant Searching(regex, q, g, s, d, done, looked, visitor.hits, stop)
      decreases |Pending(g, NO_FILTERS, d.stack)|
    {
      SearchContinues(regex, q, g, s, d, done, looked, visitor.hits);
      var (e, next) := Advance(g, NO_FILTERS, d);
      if e.DiscoverVertex? {
        stop := visitor.DiscoverVertex(e.v, e.data);
        looked := if stop then looked else looked + [e.v];
      }
      done := done + [e];
      d := next;
    }
    SearchEnds(regex, q, g, s, d, done, looked, visitor.hits, stop);
  }

  predicate SearchTyped(command: Node) {
    && "max_results" in command && command["max_results"].IntV?
    && "search_keys" in command && command["search_keys"].StrsV?
    && "search_term" in command && command["search_term"].StrV?
    && ("search_algorithm" in command ==> command["search_algorithm"].StrV?)
  }

  // ----- what a search means ----------------------------------------------------------------

  /** What the request asks for; without an algorithm a partial match. */
  ghost predicate AsksFor(command: Node, algorithm: string, term: string, keys: seq<string>, max: int) {
    && "search_term" in command && command["search_term"] == StrV(term)
    && "search_keys" in command && command["search_keys"] == StrsV(keys)
    && "max_results" in command && command["max_results"] == IntV(max)
    && if "search_algorithm" in command then command["search_algorithm"] == StrV(algorithm) else algorithm == "partial"
  }

  const ALGORITHMS := {"partial", "regex", "exact"}

  /** The text is the term, contains it without being empty, or is accepted by the engine. */
  ghost predicate TextHit(regex: (string, string) -> bool, algorithm: string, term: string, text: string) {
    if algorithm == "exact" then text == term
    else if algorithm == "partial" then text != "" && exists before, after :: text == before + term + after
    else algorithm == "regex" && regex(term, text)
  }

  /** Some searched key holds such a text. */
  ghost predicate NodeHit(regex: (string, string) -> bool, algorithm: string, term: string, keys: seq<string>,
                          n: Node)
  {
    exists k, text :: k in keys && k in n && n[k] == StrV(text) && TextHit(regex, algorithm, term, text)
  }

  /** The hits among the given vertices, in their order. */
  ghost function HitVerts(g: Graph, regex: (string, string) -> bool, algorithm: string, term: string,
                          keys: seq<string>, vs: seq<Vertex>): seq<Vertex>
  {
    if vs == [] then []
    else
      var last := vs[|vs| - 1];
      HitVerts(g, regex, algorithm, term, keys, vs[..|vs| - 1])
      + if last in g.data && NodeHit(regex, algorithm, term, keys, g.data[last].properties) then [last] else []
  }

  /** The reply shows different vertices of the tree that are hits, the first ones in pre-order, no
      more than asked for, and all of them if it shows fewer. */
  ghost predicate ShowsHits(g: Graph, s: Vertex, regex: (string, string) -> bool, algorithm: string, term: string,
                            keys: seq<string>, max: int, reply: seq<Node>, vs: seq<Vertex>)
    requires IsForest(g) && s in g.data
  {
    && vs <= HitVerts(g, regex, algorithm, term, keys, Preorder(TreeOf(g, s)))
    && |reply| == |vs| && NoDuplicates(vs) && (|vs| == 0 || |vs| <= max)
    && (forall i :: 0 <= i < |vs| ==>
          && vs[i] in g.data && Under(g, s, vs[i]) && reply[i] == g.data[vs[i]].properties
          && NodeHit(regex, algorithm, term, keys, reply[i]))
    && (|vs| < max ==>
          forall v :: v in g.data && Under(g, s, v) && NodeHit(regex, algorithm, term, keys, g.data[v].properties) ==>
            v in vs)
  }

  ghost predicate ReplyMeans(g: Graph, s: Vertex, regex: (string, string) -> bool, command: Node, reply: seq<Node>)
    requires IsForest(g) && s in g.data
  {
    && (forall algorithm, term, keys, max :: AsksFor(command, algorithm, term, keys, max) ==>
          if algorithm in ALGORITHMS
          then exists vs :: ShowsHits(g, s, regex, algorithm, term, keys, max, reply, vs)
          else reply == [])
    && ((forall algorithm, term, keys, max :: !AsksFor(command, algorithm, term, keys, max)) ==> reply == [])
  }

  lemma SearcherMeans(command: Node)
    ensures SearchTyped(command) <==>
              exists algorithm, term, keys, max :: AsksFor(command, algorithm, term, keys, max)
    ensures forall algorithm, term, keys, max :: AsksFor(command, algorithm, term, keys, max) ==>
              && SearchTyped(command)
              && term == command["search_term"].s && keys == command["search_keys"].strs
              && max == command["max_results"].i
              && GetSearcher(command) == if algorithm == "partial" then Some(Partial(term))
                                         else if algorithm == "regex" then Some(Regex(term))
                                         else if algorithm == "exact" then Some(Exact(term))
                                         else None
  {
    if SearchTyped(command) {
      var algorithm := if "search_algorithm" in command then command["search_algorithm"].s else "partial";
      assert AsksFor(command, algorithm, command["search_term"].s, command["search_keys"].strs,
                     command["max_results"].i);
    }
  }

  lemma HasTermMeans(regex: (string, string) -> bool, q: Query, algorithm: string, term: string, n: Node)
    requires q.searcher == if algorithm == "partial" then Partial(term)
                           else if algorithm == "regex" then Regex(term) else Exact(term)
    requires algorithm in ALGORITHMS
    ensures Matches(regex, q.searcher, q.keys, n) <==> NodeHit(regex, algorithm, term, q.keys, n)
  {
    forall text ensures HasTerm(regex, q.searcher, text) <==> TextHit(regex, algorithm, term, text) {
      OccursMeansSubstring(term, text);
    }
    if k :| k in q.keys && StringAt(n, k).Some? && HasTerm(regex, q.searcher, StringAt(n, k).value) {
      assert n[k] == StrV(StringAt(n, k).value);
    }
    if k, text :| k in q.keys && k in n && n[k] == StrV(text) && TextHit(regex, algorithm, term, text) {
      assert StringAt(n, k) == Some(text) && HasTerm(regex, q.searcher, text);
    }
  }

  /** The vertices that match, in the order given. */
  function MatchingVerts(regex: (string, string) -> bool, q: Query, g: Graph, vs: seq<Vertex>): seq<Vertex>
    requires forall v :: v in vs ==> v in g.data
  {
    if vs == [] then []
    else
      var last := vs[|vs| - 1];
      MatchingVerts(regex, q, g, vs[..|vs| - 1])
      + if Matches(regex, q.searcher, q.keys, g.data[last].properties) then [last] else []
  }

  lemma {:induction false} MatchingVertsHit(regex: (string, string) -> bool, q: Query, algorithm: string, term: string,
                                            g: Graph, vs: seq<Vertex>)
    requires forall v :: v in vs ==> v in g.data
    requires forall n :: Matches(regex, q.searcher, q.keys, n) <==> NodeHit(regex, algorithm, term, q.keys, n)
    ensures MatchingVerts(regex, q, g, vs) == HitVerts(g, regex, algorithm, term, q.keys, vs)
  {
    if vs != [] {
      var init, last := vs[..|vs| - 1], vs[|vs| - 1];
      assert last in vs;
      MatchingVertsHit(regex, q, algorithm, term, g, init);
      var n := g.data[last].properties;
      assert Matches(regex, q.searcher, q.keys, n) <==> NodeHit(regex, algorithm, term, q.keys, n);
    }
  }

  lemma MatchingVertsNext(regex: (string, string) -> bool, q: Query, g: Graph, vs: seq<Vertex>, v: Vertex)
    requires v in g.data && forall x :: x in vs ==> x in g.data
    ensures MatchingVerts(regex, q, g, vs + [v])
         == MatchingVerts(regex, q, g, vs)
            + if Matches(regex, q.searcher, q.keys, g.data[v].properties) then [v] else []
  {
    assert (vs + [v])[..|vs|] == vs;
  }

  lemma {:induction false} MatchingVertsMembers(regex: (string, string) -> bool, q: Query, g: Graph, vs: seq<Vertex>)
    requires forall v :: v in vs ==> v in g.data
    ensures forall v :: v in MatchingVerts(regex, q, g, vs) <==>
              v in vs && Matches(regex, q.searcher, q.keys, g.data[v].properties)
    ensures NoDuplicates(vs) ==> NoDuplicates(MatchingVerts(regex, q, g, vs))
  {
    if vs != [] {
      var init, last := vs[..|vs| - 1], vs[|vs| - 1];
      assert vs == init + [last];
      MatchingVertsMembers(regex, q, g, init);
      MatchingVertsNext(regex, q, g, init, last);
    }
  }

  lemma PropertiesNext(g: Graph, vs: seq<Vertex>, v: Vertex)
    requires v in g.data && forall x :: x in vs ==> x in g.data
    ensures PropertiesOf(g, vs + [v]) == PropertiesOf(g, vs) + [g.data[v].properties]
    ensures DataOf(g, vs + [v]) == DataOf(g, vs) + [g.data[v]]
  {
    assert (vs + [v])[..|vs|] == vs;
  }

  lemma MatchingNext(regex: (string, string) -> bool, q: Query, ds: seq<Modelhierarchy>, d: Modelhierarchy)
    ensures Matching(regex, q, ds + [d])
         == Matching(regex, q, ds) + if Matches(regex, q.searcher, q.keys, d.properties) then [d.properties] else []
  {
    assert (ds + [d])[..|ds|] == ds;
  }

  lemma {:induction false} MatchingVertsShow(regex: (string, string) -> bool, q: Query, g: Graph, vs: seq<Vertex>)
    requires forall v :: v in vs ==> v in g.data
    ensures forall v :: v in MatchingVerts(regex, q, g, vs) ==> v in g.data
    ensures PropertiesOf(g, MatchingVerts(regex, q, g, vs)) == Matching(regex, q, DataOf(g, vs))
  {
    if vs != [] {
      var init, last := vs[..|vs| - 1], vs[|vs| - 1];
      assert vs == init + [last];
      MatchingVertsShow(regex, q, g, init);
      MatchingVertsNext(regex, q, g, init, last);
      PropertiesNext(g, init, last);
      MatchingNext(regex, q, DataOf(g, init), g.data[last]);
      if Matches(regex, q.searcher, q.keys, g.data[last].properties) {
        PropertiesNext(g, MatchingVerts(regex, q, g, init), last);
      } else {
        assert MatchingVerts(regex, q, g, init) + [] == MatchingVerts(regex, q, g, init);
      }
    }
  }

  lemma {:induction false} PropertiesAt(g: Graph, vs: seq<Vertex>)
    requires forall v :: v in vs ==> v in g.data
    ensures |PropertiesOf(g, vs)| == |vs|
    ensures forall i :: 0 <= i < |vs| ==> vs[i] in g.data && PropertiesOf(g, vs)[i] == g.data[vs[i]].properties
  {
    if vs != [] { PropertiesAt(g, vs[..|vs| - 1]); }
  }

  /** The pre-order is the subtree, each vertex once. */
  lemma PreorderIsSubtree(g: Graph, s: Vertex)
    requires IsForest(g) && s in g.data
    ensures var order := Preorder(TreeOf(g, s));
            && NoDuplicates(order) && (forall v :: v in order <==> v in g.data && Under(g, s, v))
            && DataOf(g, order) == PreorderData(TreeOf(g, s))
  {
    var t := TreeOf(g, s);
    NoFiltersPruneNothing(t);
    NodesQuery.VisitedLabelled(g, NO_FILTERS, s);
    PreorderHasData(g, t);
    TreeDistinct(g, s);
    PreorderMembers(t);
    TreeIsSubtree(g, s);
    forall v ensures v in Preorder(t) <==> v in g.data && Under(g, s, v) {
      assert v in Preorder(t) <==> v in Elements(Preorder(t));
      assert v in Subtree(g, s) <==> v in g.data && Under(g, s, v);
    }
  }

  lemma CutOfHits(g: Graph, max: int, all: seq<Vertex>)
    requires forall v :: v in all ==> v in g.data
    ensures var vs, reply := AtMost(max, all), AtMost(max, PropertiesOf(g, all));
            && vs <= all && (|vs| == 0 || |vs| <= max) && (|vs| < max ==> vs == all)
            && |reply| == |vs|
            && forall i :: 0 <= i < |vs| ==> vs[i] in g.data && reply[i] == g.data[vs[i]].properties
  {
    PropertiesAt(g, all);
    var vs := AtMost(max, all);
    forall i | 0 <= i < |vs| ensures vs[i] == all[i] {}
  }

  /** Every vertex of the list is a hit of the tree, and no other is. */
  ghost predicate AllHits(g: Graph, s: Vertex, regex: (string, string) -> bool, algorithm: string, term: string,
                          keys: seq<string>, all: seq<Vertex>)
    requires IsForest(g)
  {
    forall v :: v in all <==>
      v in g.data && Under(g, s, v) && NodeHit(regex, algorithm, term, keys, g.data[v].properties)
  }

  lemma CutShows(g: Graph, s: Vertex, regex: (string, string) -> bool, algorithm: string, term: string,
                 keys: seq<string>, max: int, reply: seq<Node>, vs: seq<Vertex>, all: seq<Vertex>)
    requires IsForest(g) && s in g.data && NoDuplicates(all)
    requires all == HitVerts(g, regex, algorithm, term, keys, Preorder(TreeOf(g, s)))
    requires AllHits(g, s, regex, algorithm, term, keys, all)
    requires vs <= all && (|vs| == 0 || |vs| <= max) && (|vs| < max ==> vs == all) && |reply| == |vs|
    requires forall i :: 0 <= i < |vs| ==> vs[i] in g.data && reply[i] == g.data[vs[i]].properties
    ensures ShowsHits(g, s, regex, algorithm, term, keys, max, reply, vs)
  {
    forall i | 0 <= i < |vs| ensures vs[i] in all { assert vs[i] == all[i]; }
  }

  lemma FoundShows(g: Graph, s: Vertex, regex: (string, string) -> bool, q: Query, algorithm: string, term: string,
                   reply: seq<Node>)
    requires IsForest(g) && s in g.data && reply == Found(regex, q, TreeOf(g, s))
    requires forall n :: Matches(regex, q.searcher, q.keys, n) <==> NodeHit(regex, algorithm, term, q.keys, n)
    ensures exists vs :: ShowsHits(g, s, regex, algorithm, term, q.keys, q.max, reply, vs)
  {
    PreorderIsSubtree(g, s);
    var order := Preorder(TreeOf(g, s));
    MatchingVertsMembers(regex, q, g, order);
    MatchingVertsShow(regex, q, g, order);
    MatchingVertsHit(regex, q, algorithm, term, g, order);
    var all := MatchingVerts(regex, q, g, order);
    CutOfHits(g, q.max, all);
    CutShows(g, s, regex, algorithm, term, q.keys, q.max, reply, AtMost(q.max, all), all);
  }

  lemma FoundMeans(g: Graph, s: Vertex, regex: (string, string) -> bool, command: Node, q: Query, reply: seq<Node>)
    requires IsForest(g) && s in g.data && SearchTyped(command) && GetSearcher(command).Some?
    requires q == Query(GetSearcher(command).value, command["search_keys"].strs, command["max_results"].i)
    requires reply == Found(regex, q, TreeOf(g, s))
    ensures ReplyMeans(g, s, regex, command, reply)
  {
    SearcherMeans(command);
    forall algorithm, term, keys, max | AsksFor(command, algorithm, term, keys, max)
      ensures algorithm in ALGORITHMS
      ensures exists vs :: ShowsHits(g, s, regex, algorithm, term, keys, max, reply, vs)
    {
      forall n ensures Matches(regex, q.searcher, q.keys, n) <==> NodeHit(regex, algorithm, term, q.keys, n) {
        HasTermMeans(regex, q, algorithm, term, n);
      }
      FoundShows(g, s, regex, q, algorithm, term, reply);
    }
  }

  /** A badly typed request or an unknown algorithm throws, and the command then replies with
      nothing. */
  method ProcessRequest(h: TagHierarchy, regex: (string, string) -> bool, command: Node) returns (reply: seq<Node>)
    requires Valid(h.View())
    ensures h.root.None? ==> reply == [map["error" := StrV("empty")]]
    ensures h.root.Some? && (SearchTyped(command) ==> GetSearcher(command).None?) ==> reply == []
    ensures h.root.Some? && SearchTyped(command) && GetSearcher(command).Some? ==>
              var q := Query(GetSearcher(command).value, command["search_keys"].strs, command["max_results"].i);
              reply == Found(regex, q, TreeOf(h.graph, h.root.value))
    ensures h.root.Some? ==> ReplyMeans(h.graph, h.root.value, regex, command, reply)
  {
    if h.root.None? {
      return [map["error" := StrV("empty")]];
    }
    SearcherMeans(command);
    if !SearchTyped(command) {
      return [];
    }
    var searcher := GetSearcher(command);
    if searcher.None? {
      return [];
    }
    var q := Query(searcher.value, command["search_keys"].strs, command["max_results"].i);
    var visitor := new SearchVisitor(regex, q);
    DepthFirstVisit(h.graph, h.root.value, visitor);
    reply := ShowHits(h.graph, visitor.hits);
    FoundMeans(h.graph, h.root.value, regex, command, q, reply);
  }

  method ShowHits(g: Graph, hits: seq<Vertex>) returns (reply: seq<Node>)
    requires forall v :: v in hits ==> v in g.data
    ensures reply == PropertiesOf(g, hits)
  {
    reply := [];
    for i := 0 to |hits|
      invariant reply == PropertiesOf(g, hits[..i])
    {
      assert hits[..i + 1][..i] == hits[..i];
      reply := reply + [g.data[hits[i]].properties];
    }
    assert hits[..|hits|] == hits;
  }
}
