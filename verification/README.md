# Hierarchy service: a verified model

This project models the in-memory tag hierarchy service: the graph and index that the commands
share, the commands `populate_graph`, `update`, `delete`, `flush`, `store`, `restore`, `nodes`,
`search` and `filteroptions`, and the protocol by which a state manager's hierarchy reaches the
server through the backup service. `dafny verify dfyconfig.toml` checks everything.

How it is laid out:

- `Values`, `Graphs`, `Trees`, `Hierarchy`: the dictionaries, the vertex list with its edges in
  insertion order, the ordered tree below a vertex, and the class that holds graph, index and root.
  A vertex descriptor is opaque to the program; here descriptors are numbered in creation order.
  A "forest" is a graph whose edges join live vertices, point forward in the vertex list, and have
  pairwise different targets. Nothing in the program states this shape; it is proved of every run.
- `Filters`, `Traversal`: the prune predicate, and Boost's depth-first visit as an explicit-stack
  machine whose callbacks are proved to be those of the pruned tree.
- `Visitor`, `Aggregates`, `OnePass`, `NodesQuery`: the `nodes` query. The visitor is a class whose
  callbacks mutate the path and five result containers; `OnePass` proves that one traversal leaves in
  them the recursive readings of `Aggregates`.
- `NaiveNodes`, `CrossQuery`, `Limits`, `Monotonicity`: what the `nodes` answers mean. A naive reading
  looks at every element of the graph and climbs from it; queries are compared with each other.
- `PopulateCommand`, `UpdateCommand`, `DeleteCommand`, `Removal`, `DeleteProperties`, `SearchCommand`,
  `FilterOptionsCommand`: the other commands as methods on the shared class, each proved against a
  specification function whose properties are proved next to it.
- `Archives`, `RoundTrip`, `Runs`, `Refresh`: storing and restoring, runs of commands, the protocol.

A command that throws is caught and replies with an empty list (`tag_hierarchy/commands/command.cpp:15-36`); where
reading a missing or wrongly typed value throws, the models of the commands take that path.

Where the code and its comments or tests disagree, the model follows the code:

- The comment above the access-level branch speaks of inheritance towards the leaves. On a forest the
  inheriting branch never fires, because the edge into a vertex finishes after all edges out of it.
  Every vertex shows its own level and nothing else.
- The unit tests' oracles (unless the query on a vertex returns nothing, the vertex is suppressed
  exactly if some returned child is, and shows the highest severity a returned child shows) are not
  true of every hierarchy. `Limits` gives families on which they fail, and instances that
  `populate_graph` builds and that can be queried; `CrossQuery` proves at each vertex, for all filters
  and KPI lists and with elements anywhere, exactly when they hold. Four things break them: a KPI
  filter that hides the elements a vertex takes its flag or severity from, an element with something
  below it, a severity stored on a vertex that is no element, and a greatest severity below the -1
  that the oracle writes where there is none.
- Widening a query is not monotone when the level-1 list is dropped: a listed level-1 vertex skips the
  owner and class test as long as the list is there. `DroppingLevel1` says exactly which returned
  children stay, `LostThroughAdmitted` that only such a vertex can lose one.
- After a restore the index also holds "root". Deleting "root" then leaves `root_` recorded but removed;
  `DeleteKeepsValid` says that this is the only way a batch can break the invariant, and
  `RestoredRootDeleted` that it does so on every populated hierarchy.

## Model

| member | source | states |
|---|---|---|
| Filters.PruningIsPathFilter | tag_hierarchy/commands/nodes.cpp:41-56 | a vertex is visited from s if and only if climbing from it reaches s and no proper ancestor on the way, s included, is terminated |
| Filters.TerminatesExactly | tag_hierarchy/utils/filters.h:13-48 | which vertices stop the traversal: under a level-1 list a level-1 vertex that is not on it; elsewhere a model, or a vertex without a type, whose owner or class is present and not among a non-empty list |
| Filters.CannotJudge | tag_hierarchy/utils/filters.h:16-45 | exactly when the prune predicate throws: no integer level, or, where it goes on, a type that is no string, or under a list an owner or class that is neither string nor null |
| Filters.SettingsMean | tag_hierarchy/utils/filters.cpp:3-23 | each filter list is read under its own key |
| Visitor.PassingMeans | tag_hierarchy/visitors/filteredhierarchyvisitor.h:28-48 | an element is flagged true, and with a KPI filter it passes if it has no group or a listed one; a null group does not |
| Aggregates.OwnMarksMean | tag_hierarchy/visitors/filteredhierarchyvisitor.h:90-99 | the suppression flag and the severity a vertex stores |
| NodesQuery.CannotFinish | tag_hierarchy/visitors/filteredhierarchyvisitor.h:28-110 | exactly which vertices make the callbacks throw |
| Traversal.NextIsWhite | tag_hierarchy/commands/nodes.cpp:54-56 | on a forest the colour map never stops the visit: the next child is never already seen |
| Traversal.AdvanceGoing | tag_hierarchy/commands/nodes.cpp:54-56 | each step of the explicit-stack visit makes the next callback of the pruned tree, and the visit ends |
| Visitor.FilteredHierarchyVisitor.DiscoverVertex | tag_hierarchy/visitors/filteredhierarchyvisitor.h:25-63 | the loop with its early break marks exactly what the walk function marks, and the model goes under the second-level key; both index expressions are in range unless a passing element starts the path |
| Visitor.FilteredHierarchyVisitor.FinishVertex | tag_hierarchy/visitors/filteredhierarchyvisitor.h:64-66 | pops the path, which is never empty there |
| Visitor.FilteredHierarchyVisitor.FinishEdge | tag_hierarchy/visitors/filteredhierarchyvisitor.h:68-134 | the new access, suppression and severity containers, nothing else changed |
| OnePass.EarlyBreakLosesNothing | tag_hierarchy/visitors/filteredhierarchyvisitor.h:49-56 | on a set closed upward along the path, stopping at the first valid entry marks the whole path |
| OnePass.VisitMarksValid | tag_hierarchy/visitors/filteredhierarchyvisitor.h:25-66 | visiting a subtree restores the path and marks the vertices with a passing element at or below them, plus the path if there is one; the set stays closed upward |
| OnePass.VisitFilesModels | tag_hierarchy/visitors/filteredhierarchyvisitor.h:57-59 | below the start every passing element files its parent under the vertex just below the start |
| OnePass.VisitSuppresses | tag_hierarchy/visitors/filteredhierarchyvisitor.h:86-119 | one pass adds to the suppressed set the recursive OR of each vertex of the subtree |
| OnePass.KidsSeverityIs | tag_hierarchy/visitors/filteredhierarchyvisitor.h:97-132 | one pass over the children leaves the recursive maximum on every vertex below and raises the parent by theirs |
| OnePass.KidsAccessIs | tag_hierarchy/visitors/filteredhierarchyvisitor.h:72-84 | the inheriting branch never fires: each vertex below gets its own level or none |
| OnePass.OnePassIsRecursive | tag_hierarchy/visitors/filteredhierarchyvisitor.h:25-134 | after the whole traversal all five containers are the recursive readings of the visited tree |
| NodesQuery.DepthFirstVisit | tag_hierarchy/commands/nodes.cpp:54-56 | driving the visitor by the explicit stack throws exactly if some visited vertex holds a property of the wrong type that is read there, and otherwise leaves the visitor in the state of the visited tree's callbacks; the path is always the stack from the top, start vertex last |
| NodesQuery.StartOf | tag_hierarchy/commands/nodes.cpp:43-52 | the start is the live vertex with the requested id, the root for null |
| NodesQuery.ParentMeans | tag_hierarchy/commands/nodes.cpp:43-52 | which parent ids are read without throwing, and which of them name a vertex |
| NodesQuery.PathClimbs | tag_hierarchy/visitors/filteredhierarchyvisitor.h:27-66 | at every callback the path is a climb from the current vertex to the start, each entry followed by its parent |
| NodesQuery.TraversalReadsOff | tag_hierarchy/commands/nodes.cpp:61-83 | at each child of the start the containers show the readings of that child's own subtree |
| NodesQuery.ListIds | tag_hierarchy/commands/nodes.cpp:67-70 | the model ids, each once, in whatever order the vertex set iterates |
| NodesQuery.ShowChild | tag_hierarchy/commands/nodes.cpp:67-85 | the dictionary of one returned child: every stored entry under its key, except the model ids, the computed suppression flag, and the computed severity where there is one |
| NodesQuery.ProcessRequest | tag_hierarchy/commands/nodes.cpp:14-88 | "empty" without a root; nothing if the parent id or a visited vertex makes it throw; otherwise the valid children in order, each with everything stored on it, its aggregates and its model ids |
| NaiveNodes.ValidMeansWitness | tag_hierarchy/visitors/filteredhierarchyvisitor.h:25-63 | a child is valid if and only if some passing element is reached from it past no terminated vertex |
| NaiveNodes.ModelsMeanParents | tag_hierarchy/visitors/filteredhierarchyvisitor.h:57-59 | the models of a child are exactly the parents of the passing elements reached from it, itself included |
| NaiveNodes.SuppressionMeansExposed | tag_hierarchy/visitors/filteredhierarchyvisitor.h:86-119 | a vertex is suppressed from below if and only if a suppressed element is visited below it with no element in between |
| NaiveNodes.SeverityMeansGreatestExposed | tag_hierarchy/visitors/filteredhierarchyvisitor.h:97-132 | the severity raised from below is the one that is attained by such an element and not exceeded by any, and no other value is |
| NaiveNodes.OnePassExact | tag_hierarchy/visitors/filteredhierarchyvisitor.h:25-134 | for every vertex: what the four containers hold after the traversal, against the naive reading; nothing for unvisited vertices |
| NaiveNodes.AnswerIsNaive | tag_hierarchy/commands/nodes.cpp:54-87 | the answer lists, in child order, exactly the children with a witness, each with what is stored on it and with naively computed suppression, severity and models; nothing below a terminated start |
| CrossQuery.ReturnedChildren | tag_hierarchy/commands/nodes.cpp:61-66 | which children are returned, and that the subtree judged is the one a query on the child visits |
| CrossQuery.DrillDown | tag_hierarchy/commands/nodes.cpp:41-66 | a child that is no passing element is returned if and only if the query on it under the same filters returns something |
| CrossQuery.SuppressionLawExact | tag_hierarchy/unittests/test_is_suppressed_field.cpp:15-58 | exactly when the suppression oracle holds at a vertex, for every hierarchy, filter and KPI list: if a child is returned, then a suppressed vertex has a suppressing element reached from a returned child or a returned element that shadows some suppression, and an unsuppressed one has no such shadow |
| CrossQuery.SuppressionConsistent | tag_hierarchy/unittests/test_is_suppressed_field.cpp:15-58 | at a non-element: without a KPI filter it fails exactly if there is a shadow and nothing suppresses the vertex; with elements as leaves it never fails without a KPI filter, and with one exactly if something is returned and something suppresses the vertex, but no such element is reached from what is returned |
| CrossQuery.SeverityLawExact | tag_hierarchy/unittests/test_severity_field.cpp:14-55 | exactly when the severity oracle, which counts a missing severity as -1, holds at a vertex, for every hierarchy, filter and KPI list: if a child is returned, the reported severity is not below -1, no stray one (shown by a returned child that does not pass it on) exceeds it, unless it counts as -1 it is stray or that of an exposed element reached from a returned child, and an element has no greater one reached below it |
| CrossQuery.SeverityConsistent | tag_hierarchy/unittests/test_severity_field.cpp:14-55 | at a non-element, with elements as leaves and severities stored on elements only: without a KPI filter it holds exactly if the greatest severity raised from below, if any, is not below -1; with one exactly if that is so and a greatest one above -1 is reached from a returned child, given that one is returned |
| CrossQuery.CrossQueryConsistent | tag_hierarchy/unittests/test_is_suppressed_field.cpp:15-58 | with no KPI filter, elements as leaves and severities stored on elements only: for every returned non-element child the query on it is not empty, and the child's suppression is the OR and its severity the maximum of what that query shows |
| Limits.KpiFilterBreaksSuppression | tag_hierarchy/visitors/filteredhierarchyvisitor.h:33-48 | a family on which a KPI filter breaks the suppression oracle: a hidden suppressed leaf beside a returned one |
| Limits.KpiFilterBreaksSeverity | tag_hierarchy/visitors/filteredhierarchyvisitor.h:37-46 | a family with a hidden leaf of higher severity than the returned one: the severity oracle holds exactly if the hidden severity is -1 |
| Limits.StoredSeverityBreaksSeverity | tag_hierarchy/commands/nodes.cpp:77-79 | a family with a severity stored on a non-element and none on its leaves: the severity oracle holds exactly if it is -1 |
| Limits.InnerElementBreaksSuppression | tag_hierarchy/visitors/filteredhierarchyvisitor.h:86-96 | a family on which an element with something below it breaks the suppression oracle |
| Limits.InnerElementBreaksSeverity | tag_hierarchy/visitors/filteredhierarchyvisitor.h:97-110 | a family with a rated element below an unrated one: the severity oracle holds exactly if the severity is not above -1 |
| Limits.NegativeBreaksSeverity | tag_hierarchy/unittests/test_severity_field.cpp:37-54 | a family on which a greatest severity below -1 breaks the severity oracle |
| Limits.WideLimit | tag_hierarchy/visitors/filteredhierarchyvisitor.h:33-48 | a populated hierarchy on which a returned folder breaks both oracles under a KPI filter, and both queries meet what the command requires |
| Limits.SeverityLimit | tag_hierarchy/commands/nodes.cpp:77-79 | the same for the severity oracle and a severity stored on a folder, without a KPI filter |
| Limits.NegativeLimit | tag_hierarchy/unittests/test_severity_field.cpp:37-54 | the same for a leaf with severity -3 beside one with none |
| Limits.DeepLimit | tag_hierarchy/visitors/filteredhierarchyvisitor.h:86-110 | the same for both oracles and an element below an element, without a KPI filter |
| Limits.DroppingLevel1Loses | tag_hierarchy/utils/filters.h:16-18 | a family on which the query without the level-1 list loses a child that the query with it returns |
| Limits.Level1Limit | tag_hierarchy/utils/filters.h:16-18 | a populated hierarchy on which that happens to the query on the root |
| Monotonicity.WiderTerminatesLess | tag_hierarchy/utils/filters.h:13-48 | enlarging a non-empty list, or dropping the owner or class list, terminates no further vertex |
| Monotonicity.DroppingLevel1 | tag_hierarchy/utils/filters.h:16-48 | a returned child stays returned without the level-1 list if and only if the other lists stop neither the start nor, on some climb from a passing element to the child, a vertex above that element |
| Monotonicity.LostThroughAdmitted | tag_hierarchy/utils/filters.h:16-18 | a child is lost only through a listed level-1 vertex, the start or one visited at or below the child, that the owner or class list stops |
| Monotonicity.DroppingLevel1IsLooser | tag_hierarchy/utils/filters.h:16-23 | where level-1 vertices are typed as non-models, dropping the level-1 list prunes nothing more |
| Monotonicity.LooserSeesMore | tag_hierarchy/visitors/filteredhierarchyvisitor.h:25-134 | on any tree, looser pruning and a wider KPI list keep validity, suppression and model ids, and lower no severity |
| Monotonicity.LooserQuery | tag_hierarchy/commands/nodes.cpp:41-87 | the same for any looser pruning of the tree below the start |
| Monotonicity.WiderQuery | tag_hierarchy/commands/nodes.cpp:41-87 | enlarging a non-empty list, or dropping the owner, class or KPI list, loses no returned child; each is still suppressed if it was, with no lower computed severity and all its models |
| Monotonicity.DroppingLevel1Typed | tag_hierarchy/utils/filters.h:16-23 | the same for dropping the level-1 list where level-1 vertices are typed as non-models |
| PopulateCommand.ProcessRequest | tag_hierarchy/commands/populategraph.cpp:12-55 | the loop leaves the state of inserting the batch node by node up to the first one without an id, where it throws; on the flag a root is added first, a new vertex called "root" on level 0; each node has a new vertex of its own, the index names the last of each id, and what was there stays; an admissible batch leaves a valid state |
| PopulateCommand.IdsMean | tag_hierarchy/commands/populategraph.cpp:28 | a node is identified by the string under "id" |
| PopulateCommand.PopulateKeepsValid | tag_hierarchy/commands/populategraph.cpp:26-51 | a batch of new, distinct ids other than "root" keeps the forest, the index and the root, and no other batch does |
| PopulateCommand.PopulateStoresNodes | tag_hierarchy/commands/populategraph.cpp:26-51 | each node ends up under its id with its own properties, in batch order at the end of the vertex list; everything from before is untouched |
| PopulateCommand.PopulateBuildsParents | tag_hierarchy/commands/populategraph.cpp:30-48 | the parent of the i-th node is the one its `parent_id` names among the ids known before the batch or in front of it, the root if it is not a string, none if unknown; also for cyclic input |
| PopulateCommand.OrderIrrelevant | tag_hierarchy/commands/populategraph.cpp:26-51 | two parents-first orders of the same nodes give the same parent relation |
| PopulateCommand.BatchesCompose | tag_hierarchy/commands/populategraph.cpp:26-51 | one batch equals two consecutive ones |
| UpdateCommand.ApplyItem | tag_hierarchy/commands/update.cpp:21-32 | one item: thrown, rejected or accepted, and the resulting state |
| UpdateCommand.ProcessRequest | tag_hierarchy/commands/update.cpp:12-41 | read off the state before: a vertex ends with the last item that names it and has its parent id, otherwise as it was; the reply is empty if some item cannot be compared, "ok" if all keep the parent, and otherwise one refusal for each that does not, behind a headline |
| UpdateCommand.UpdateKeepsJudgement | tag_hierarchy/commands/update.cpp:23-31 | applying one item changes the verdict on no other |
| UpdateCommand.UpdateDecidedInitially | tag_hierarchy/commands/update.cpp:21-32 | every vertex ends with the last item the initial state accepts for it, or with what it had; structure, index and root stay |
| Removal.RemoveNext | tag_hierarchy/commands/delete.cpp:18-23 | a vertex whose children are gone has no edge left when it is removed, and the result is the graph without it |
| DeleteCommand.PostOrderIsSubtree | tag_hierarchy/commands/delete.cpp:11-16 | the collected list is the subtree, without repetition, children before parents |
| DeleteCommand.DeleteVertexRecursive | tag_hierarchy/commands/delete.cpp:5-26 | the recursion terminates; below the top it only collects the post-order, at the top it removes exactly the subtree from graph and index |
| DeleteCommand.RemoveListed | tag_hierarchy/commands/delete.cpp:17-24 | the removal loop over the collected list |
| DeleteCommand.DeleteId | tag_hierarchy/commands/delete.cpp:53-60 | one listed id: "Not found" and no change if it is not indexed now, otherwise its subtree is gone and the status is "Success" |
| DeleteCommand.ProcessRequest | tag_hierarchy/commands/delete.cpp:45-62 | read off the state before: exactly what lies at or below a listed vertex is gone, with the edges into it and its index entries, and all other vertices keep id and properties; each id gets its status; without a list of ids nothing happens and nothing is replied |
| DeleteProperties.SurvivorsKeepNeighbours | tag_hierarchy/commands/delete.cpp:16-24 | survivors keep their parent and the order of their surviving children |
| DeleteProperties.TreeUntouched | tag_hierarchy/commands/delete.cpp:16-24 | a subtree that loses nothing is left exactly as it was |
| DeleteProperties.DeleteAllIsUnion | tag_hierarchy/commands/delete.cpp:46-62 | a batch removes the union of the listed subtrees of the initial state, and nothing else |
| DeleteProperties.SurvivorsKeepData | tag_hierarchy/commands/delete.cpp:16-24 | after a batch the live vertices are exactly those not at or below a listed one, each with its id, its properties, the edge into it and its index entry |
| DeleteProperties.BatchOrderIrrelevant | tag_hierarchy/commands/delete.cpp:46-62 | lists of the same ids, in any order and with any repetitions, leave the same state |
| DeleteProperties.StatusDecided | tag_hierarchy/commands/delete.cpp:53-60 | an id's status is "Success" exactly if it was present and, before its last occurrence, neither it nor an ancestor had been listed |
| DeleteProperties.StatusForEachListed | tag_hierarchy/commands/delete.cpp:46-61 | the listed ids get a status and nothing else does |
| DeleteProperties.DeleteKeepsValid | tag_hierarchy/commands/delete.cpp:46-62 | a batch keeps the invariant if and only if it does not list "root" while "root" is indexed |
| Runs.RestoredRootDeleted | tag_hierarchy/tag_hierarchy.cpp:155-166 | restoring any populated hierarchy and deleting "root" breaks the invariant |
| Hierarchy.TagHierarchy.ClearGraph | tag_hierarchy/tag_hierarchy.cpp:105-110 | flush leaves the initial state |
| Hierarchy.TagHierarchy.HealthCheck | tag_hierarchy/tag_hierarchy.cpp:93-103 | one reply, with an error exactly when it is not ok; in a valid state it is ok if and only if some live vertex is called "root" |
| Archives.Store | tag_hierarchy/tag_hierarchy.cpp:63-76 | the archive lists what the vertices carry in list order, and the edges, in insertion order, by the places of their ends |
| Archives.Restore | tag_hierarchy/tag_hierarchy.cpp:78-91 | the hierarchy afterwards is the one the archive describes: its entries in order, its edges between them, and with different ids an index and a root that name the entries |
| RoundTrip.RestoredValid | tag_hierarchy/tag_hierarchy.cpp:155-166 | a restored hierarchy is valid |
| RoundTrip.RestoredIndex | tag_hierarchy/tag_hierarchy.cpp:159-165 | every id and the root are found again at their vertex's position; the index gains "root" |
| RoundTrip.RestoredTree | tag_hierarchy/tag_hierarchy.cpp:149-158 | below every vertex the restored tree is the stored one up to the naming of vertices |
| RoundTrip.StoreAgain | tag_hierarchy/tag_hierarchy.cpp:63-91 | storing a restored hierarchy gives the archive it was restored from |
| RoundTrip.QueriesSurvive | tag_hierarchy/unittests/test_load_save.cpp:9-42 | every `nodes` query gets the same answer after a restore, throws exactly if it did before, and starts at a vertex with the same data |
| RoundTrip.WholeTreeQueriesSurvive | tag_hierarchy/tag_hierarchy.cpp:149-165 | every `search` finds the same hits in the same order, and every `filteroptions` the same values |
| SearchCommand.OccursMeansSubstring | tag_hierarchy/commands/search.cpp:17-28 | the partial searcher finds the term exactly if the text is something, the term, something |
| SearchCommand.SearchVisitor.DiscoverVertex | tag_hierarchy/visitors/searchvisitor.h:24-44 | stops once the limit is reached, before looking; otherwise records the vertex exactly if some searched property matches |
| SearchCommand.HitsAreFound | tag_hierarchy/visitors/searchvisitor.h:24-44 | hits collected on a prefix of the pre-order, cut short only at the limit, are the result of searching everything and cutting |
| SearchCommand.DepthFirstVisit | tag_hierarchy/commands/search.cpp:87-96 | the traversal with its exception exit finds the first max(0, limit) matches in pre-order |
| SearchCommand.ProcessRequest | tag_hierarchy/commands/search.cpp:72-103 | "empty" without a root; nothing for a badly typed request or an unknown algorithm, which throw; otherwise different vertices of the tree, the first in pre-order, that have under a searched key the term itself ("exact"), a non-empty text with the term in it ("partial" or no algorithm) or a text the engine accepts ("regex"), at most as many as asked for and all of them if fewer |
| FilterOptionsCommand.FilterOptionsVisitor.DiscoverVertex | tag_hierarchy/visitors/filteroptionsvisitor.h:21-27 | adds the vertex's string value, if any, and keeps the set ordered |
| FilterOptionsCommand.AscendingUnique | tag_hierarchy/commands/filteroptions.cpp:31-36 | an ascending list is determined by its elements, so the reply is |
| FilterOptionsCommand.LessIsBefore | tag_hierarchy/unittests/test_filter_options.cpp:17-19 | the order is the alphabetical one: a prefix first, otherwise the first difference decides |
| FilterOptionsCommand.ProcessRequest | tag_hierarchy/commands/filteroptions.cpp:13-37 | "empty" without a root; nothing without a type, which throws; otherwise, under the key of the type, exactly the string values the vertices of the tree have, in alphabetical order |
| Runs.Handle | tag_hierarchy/tag_hierarchy.cpp:112-140 | each command, carried out by its own method, leaves the state that runs take it to leave |
| Runs.AllowedExactly | tag_hierarchy/commands/delete.cpp:46-62 | runs demand no more than the invariant needs: any update, flush or stored hierarchy is allowed, and a batch to delete or to insert exactly when it leaves a valid state |
| Runs.RunStaysValid | tag_hierarchy/tag_hierarchy.cpp:122-140 | every state of every run of allowed commands is valid |
| Runs.RunStepsHaveEffect | tag_hierarchy/tag_hierarchy.cpp:112-140 | every step of every run does what its command is for, read off the state before it |
| Runs.RunKeepsShape | tag_hierarchy/tag_hierarchy.cpp:34-38 | in every state of every run edges point forward in the vertex list, in-degree is at most one, the root has no in-edge, and the index is exact in both directions |
| Refresh.BackupService.EventLoop | backup_service/main.cpp:76-105 | a payload is written, then announced, then confirmed; a request for the hierarchy changes nothing and gets the cache or an error |
| Refresh.StoreHierarchy | main.cpp:62-78 | the cache holds the manager's archive |
| Refresh.RestoreHierarchy | main.cpp:80-100 | the hierarchy becomes the cached one; with an empty cache it is left alone and the error is reported |
| Refresh.HandleSubscribe | main.cpp:213-224 | restores on "cache_updated" and on nothing else |
| Refresh.StepKeepsInvariant | backup_service/main.cpp:76-105 | every step of the interleaved protocol keeps the invariant and only extends the log of stores |
| Refresh.ManagerCommandHasEffect | tag_hierarchy/tag_hierarchy.cpp:112-140 | a command to the state manager does to its hierarchy what it is for and nothing else to the system |
| Refresh.StepsAreEventLoop | backup_service/main.cpp:76-105 | along every interleaved execution the effects and the cache of the backup service are those of serving the finished requests by turns of its event loop, plus what the request in hand has caused so far |
| Refresh.RefreshSafety | README.md:55-62 | in every state of every execution the server is empty or holds one complete stored hierarchy, and unless a restore has yet to read the cache, what the server holds or is about to load is the newest written one, or a notification is queued or about to be published |
| Refresh.VersionsNeverGoBack | README.md:55-62 | the server's version never decreases along an execution |
| Refresh.QuietServerIsUpToDate | README.md:55-62 | when nothing is under way the server holds the hierarchy stored last and answers every `nodes` query that one could be asked as it did |
| Refresh.QuietServerFindsAlike | README.md:55-62 | and every `search` and `filteroptions`, "empty" included |
| Refresh.WorkBalances | README.md:55-62 | the number of steps still to be made is seven for each store and three for each order to restore, less the steps made |
| Refresh.CatchesUp | README.md:55-62 | from any state of any execution on, if nothing new is begun, exactly that many steps follow and they never get stuck; then the server holds the hierarchy stored last |
| Refresh.StoreArrives | README.md:55-62 | from a quiet state the manager can store, and eight steps later the server holds that hierarchy |

## Left out

- Sockets, polling, message framing and addresses: the protocol keeps atomic steps, one pending request for each process, and a counter of queued notifications.
- Losing notifications: the subscription is taken to be reliable, and the server's hierarchy to change by restoring only.
- The bytes of an archive, compression and the key-value store: an archive is a list of vertices and a list of edges by position. A payload is assumed never to equal the text that asks for the hierarchy; compressed data starts with the magic bytes of section 2.3.1 of RFC 1952. Corrupt archives are not modelled.
- The edge number, always 0, and the constant edge-label map.
- Hierarchies that are not forests: no run of allowed commands produces one. The colour test is modelled, and proved never to fire.
- NodesQuery.ProcessRequest: requires that a string `parentId` is indexed (an unknown one would insert a null vertex) and that the start is not itself a passing element (the index expressions would leave the path).
- PopulateCommand.ProcessRequest: requires a root before any node without a string parent. Runs of commands go on only from valid states, so `Admissible` batches alone occur in them, with `add_root` at most once; the program does not check this.
- Exceptions other than those thrown by reading a missing or wrongly typed value and by an unknown search algorithm.
- Regular expressions and the substring algorithm: a regular expression is a parameter, a partial match is the substring relation, false on an empty text as in the library.
- Order of `model_ids`: the set of vertices iterates in address order, so any order is allowed.
- Aliasing: the visitor's containers are fields of the visitor rather than references into the caller's variables.
- Logging, dispatch by name, registration of commands, and the Python client.
