/** The refresh protocol: a state manager stores, the backup service caches and publishes, the
    server restores.

    The classes carry out one exchange at a time; the state machine below interleaves the
    steps of the three processes. A request that is not the fixed text asking for the
    hierarchy is taken as a payload, and payloads are compressed archives, so the two never
    coincide. The subscription is taken to be reliable.
 */
module Refresh {
  import opened Values
  import opened Graphs
  import opened Hierarchy
  import opened Archives
  import opened Runs
  import RoundTrip
  import NodesQuery
  import Filters
  import SearchCommand
  import FilterOptionsCommand
  import opened Trees

  datatype Request = GetHierarchy | SetHierarchy(payload: Archive)

  datatype Answer = Success | NotPopulated | Payload(archive: Archive)

  function Lookup(cache: Option<Archive>): Answer {
    match cache
    case Some(a) => Payload(a)
    case None => NotPopulated
  }

  // ----- one exchange at a time -------------------------------------------------------------

  /** What the backup service does to the outside, in order. */
  datatype Effect = Wrote(payload: Archive) | PublishedUpdate | Replied(answer: Answer)

  datatype Served = Served(cache: Option<Archive>, effects: seq<Effect>)

  /** What serving one request amounts to: a payload is cached, announced and confirmed in this
      order, a request for the hierarchy is answered from the cache. */
  function Serve(cache: Option<Archive>, request: Request): Served {
    match request
    case GetHierarchy => Served(cache, [Replied(Lookup(cache))])
    case SetHierarchy(payload) => Served(Some(payload), [Wrote(payload), PublishedUpdate, Replied(Success)])
  }

  class BackupService {
    var cache: Option<Archive>
    var log: seq<Effect>

    constructor ()
      ensures cache == None && log == []
    {
      cache, log := None, [];
    }

    method Set(payload: Archive) returns (answer: Answer)
      modifies this
      ensures cache == Some(payload) && answer == Success
      ensures log == old(log) + [Wrote(payload)]
    {
      cache := Some(payload);
      log := log + [Wrote(payload)];
      answer := Success;
    }

    method Get() returns (answer: Answer)
      ensures answer == Lookup(cache)
    {
      if cache.Some? {
        answer := Payload(cache.value);
      } else {
        answer := NotPopulated;
      }
    }

    /** One turn of the event loop: a payload is written, then announced, then confirmed. */
    method EventLoop(request: Request) returns (answer: Answer)
      modifies this
      ensures cache == Serve(old(cache), request).cache
      ensures log == old(log) + Serve(old(cache), request).effects
      ensures answer == if request.GetHierarchy? then Lookup(cache) else Success
    {
      if request.GetHierarchy? {
        answer := Get();
      } else {
        answer := Set(request.payload);
        log := log + [PublishedUpdate];
      }
      log := log + [Replied(answer)];
    }
  }

  /** The state manager's `store`: the hierarchy goes to the backup service. */
  method StoreHierarchy(h: TagHierarchy, backup: BackupService) returns (reply: seq<Node>)
    requires IsForest(h.graph)
    modifies backup
    ensures backup.cache == Some(Encode(h.graph))
    ensures reply == [map["success" := BoolV(true)]]
  {
    var payload := Store(h);
    var answer := backup.EventLoop(SetHierarchy(payload));
    reply := [map["success" := BoolV(true)]];
  }

  /** The server's `restore`: an empty cache is reported and leaves the hierarchy alone. */
  method RestoreHierarchy(h: TagHierarchy, backup: BackupService) returns (reply: seq<Node>)
    requires backup.cache.Some? ==> WellFormed(backup.cache.value)
    modifies h, backup
    ensures backup.cache == old(backup.cache)
    ensures match backup.cache
            case Some(a) => h.View() == Decode(a) && reply == [map["success" := BoolV(true)]]
            case None => h.View() == old(h.View()) && reply == [map["error" := StrV("cache was not populated")]]
  {
    var answer := backup.EventLoop(GetHierarchy);
    if answer.Payload? {
      reply := Archives.Restore(h, answer.archive);
    } else {
      reply := [map["error" := StrV("cache was not populated")]];
    }
  }

  method HandleSubscribe(h: TagHierarchy, backup: BackupService, message: string)
    requires backup.cache.Some? ==> WellFormed(backup.cache.value)
    modifies h, backup
    ensures backup.cache == old(backup.cache)
    ensures h.View() == if message == "cache_updated" && backup.cache.Some? then Decode(backup.cache.value)
                        else old(h.View())
  {
    if message == "cache_updated" {
      var reply := RestoreHierarchy(h, backup);
    }
  }

  // ----- the interleaved protocol -----------------------------------------------------------

  datatype ManagerPc = Free | Sent(payload: Archive) | InService

  datatype BackupPc = Idle | Publishing | ConfirmingStore | SendingHierarchy(answer: Answer, version: nat)

  datatype ServerPc = Listening | Asked | BeingServed | Received(answer: Answer, version: nat)

  /** `stores` logs the hierarchies the manager has sent; the first `written` of them have
      reached the cache, and `version` of those is what the server holds, 0 for none. */
  datatype System = System(
    manager: State, managerPc: ManagerPc,
    cache: Option<Archive>, backupPc: BackupPc, notifications: nat,
    server: State, serverPc: ServerPc,
    stores: seq<State>, written: nat, version: nat)

  const START := System(CLEARED, Free, None, Idle, 0, CLEARED, Listening, [], 0, 0)

  datatype Step =
    | ManagerCommand(c: Command)
    | ManagerStores
    | BackupWrites
    | BackupPublishes
    | BackupConfirms
    | BackupReads
    | BackupSends
    | ServerNotified
    | ServerToldToRestore
    | ServerLoads

  ghost predicate Enabled(s: System, step: Step) {
    match step
    case ManagerCommand(c) => s.managerPc.Free? && Allowed(s.manager, c)
    case ManagerStores => s.managerPc.Free?
    case BackupWrites => s.backupPc.Idle? && s.managerPc.Sent?
    case BackupPublishes => s.backupPc.Publishing?
    case BackupConfirms => s.backupPc.ConfirmingStore?
    case BackupReads => s.backupPc.Idle? && s.serverPc.Asked?
    case BackupSends => s.backupPc.SendingHierarchy?
    case ServerNotified => s.serverPc.Listening? && s.notifications > 0
    case ServerToldToRestore => s.serverPc.Listening?
    case ServerLoads => s.serverPc.Received?
  }

  /** The manager's hierarchy is valid in every reachable state, so its two guards below are
      there only to make the function total. */
  ghost function Take(s: System, step: Step): System
    requires Enabled(s, step)
  {
    match step
    case ManagerCommand(c) => if Valid(s.manager) then s.(manager := After(s.manager, c)) else s
    case ManagerStores =>
      if Valid(s.manager) then s.(managerPc := Sent(Encode(s.manager.graph)), stores := s.stores + [s.manager]) else s
    case BackupWrites =>
      s.(cache := Some(s.managerPc.payload), written := s.written + 1, managerPc := InService, backupPc := Publishing)
    case BackupPublishes => s.(notifications := s.notifications + 1, backupPc := ConfirmingStore)
    case BackupConfirms => s.(backupPc := Idle, managerPc := Free)
    case BackupReads => s.(backupPc := SendingHierarchy(Lookup(s.cache), s.written), serverPc := BeingServed)
    case BackupSends => s.(backupPc := Idle, serverPc := Received(s.backupPc.answer, s.backupPc.version))
    case ServerNotified => s.(notifications := s.notifications - 1, serverPc := Asked)
    case ServerToldToRestore => s.(serverPc := Asked)
    case ServerLoads =>
      if s.serverPc.answer.Payload? then
        s.(server := Decode(s.serverPc.answer.archive), version := s.serverPc.version, serverPc := Listening)
      else s.(serverPc := Listening)
  }

  // ----- the steps of the backup service are its event loop ---------------------------------

  ghost function EffectsOf(s: System, step: Step): seq<Effect>
    requires Enabled(s, step)
  {
    match step
    case BackupWrites => [Wrote(s.managerPc.payload)]
    case BackupPublishes => [PublishedUpdate]
    case BackupConfirms => [Replied(Success)]
    case BackupSends => [Replied(s.backupPc.answer)]
    case _ => []
  }

  /** The request that a step finishes serving. */
  ghost function FinishedBy(s: System, step: Step): seq<Request>
    requires Enabled(s, step)
  {
    match step
    case BackupConfirms => if s.cache.Some? then [SetHierarchy(s.cache.value)] else []
    case BackupSends => [GetHierarchy]
    case _ => []
  }

  /** Serving requests one after the other, from an empty cache. */
  function ServeAll(requests: seq<Request>): Served {
    if requests == [] then Served(None, [])
    else
      var before := ServeAll(requests[..|requests| - 1]);
      var last := Serve(before.cache, requests[|requests| - 1]);
      Served(last.cache, before.effects + last.effects)
  }

  /** The log of the steps is that of serving the finished requests in turn, followed by what
      the request in hand has caused so far; while none is being stored the caches agree. */
  ghost predicate LikeEventLoop(s: System, log: seq<Effect>, finished: seq<Request>) {
    var served := ServeAll(finished);
    match s.backupPc
    case Idle => log == served.effects && s.cache == served.cache
    case Publishing => s.cache.Some? && log == served.effects + [Wrote(s.cache.value)]
    case ConfirmingStore => s.cache.Some? && log == served.effects + [Wrote(s.cache.value), PublishedUpdate]
    case SendingHierarchy(answer, _) =>
      log == served.effects && s.cache == served.cache && answer == Lookup(s.cache)
  }

  lemma StepLikeEventLoop(s: System, step: Step, log: seq<Effect>, finished: seq<Request>)
    requires Enabled(s, step) && LikeEventLoop(s, log, finished)
    ensures LikeEventLoop(Take(s, step), log + EffectsOf(s, step), finished + FinishedBy(s, step))
  {
    var more := finished + FinishedBy(s, step);
    if FinishedBy(s, step) == [] {
      assert more == finished;
    } else {
      assert more[..|more| - 1] == finished;
    }
    assert log + [] == log;
  }

  /** An answer on its way carries the hierarchy that was current when it was read. */
  ghost predicate AnswerOf(stores: seq<State>, answer: Answer, version: nat) {
    && version <= |stores|
    && if version == 0 then answer == NotPopulated
       else IsForest(stores[version - 1].graph) && answer == Payload(Encode(stores[version - 1].graph))
  }

  /** The version the server will hold once what it is doing is finished, if that is settled. */
  function Settled(s: System): Option<nat> {
    match s.serverPc
    case Listening => Some(s.version)
    case Asked => None
    case BeingServed => if s.backupPc.SendingHierarchy? then Some(s.backupPc.version) else None
    case Received(_, v) => Some(v)
  }

  /** Who waits for whom, how the versions compare, and that a stale server will hear of it. */
  ghost predicate Progress(s: System) {
    && (s.managerPc.InService? <==> s.backupPc.Publishing? || s.backupPc.ConfirmingStore?)
    && (s.backupPc.SendingHierarchy? <==> s.serverPc.BeingServed?)
    && |s.stores| == s.written + (if s.managerPc.Sent? then 1 else 0)
    && s.version <= s.written
    && (s.backupPc.SendingHierarchy? ==> s.version <= s.backupPc.version <= s.written)
    && (s.serverPc.Received? ==> s.version <= s.serverPc.version <= s.written)
    && (s.serverPc.Received? && !s.serverPc.answer.Payload? ==> s.serverPc.version == 0)
    && (s.backupPc.SendingHierarchy? && !s.backupPc.answer.Payload? ==> s.backupPc.version == 0)
    && (s.cache.None? ==> s.written == 0)
    && (Settled(s).Some? && Settled(s).value < s.written ==> s.notifications > 0 || s.backupPc.Publishing?)
  }

  /** What is cached, on its way or loaded is always one whole stored hierarchy. */
  ghost predicate Contents(s: System) {
    && AnswerOf(s.stores, Lookup(s.cache), s.written)
    && (s.managerPc.Sent? ==> SentLast(s.stores, s.managerPc.payload))
    && (s.backupPc.SendingHierarchy? ==> AnswerOf(s.stores, s.backupPc.answer, s.backupPc.version))
    && (s.serverPc.Received? ==> AnswerOf(s.stores, s.serverPc.answer, s.serverPc.version))
    && Holds(s.stores, s.server, s.version)
  }

  ghost predicate SentLast(stores: seq<State>, payload: Archive) {
    && stores != [] && IsForest(stores[|stores| - 1].graph)
    && payload == Encode(stores[|stores| - 1].graph)
  }

  ghost predicate Holds(stores: seq<State>, server: State, version: nat) {
    && version <= |stores|
    && if version == 0 then server == CLEARED
       else IsForest(stores[version - 1].graph) && server == RoundTrip.Restored(stores[version - 1])
  }

  ghost predicate StoresValid(s: System) {
    Valid(s.manager) && forall st :: st in s.stores ==> Valid(st)
  }

  ghost predicate Invariant(s: System) {
    StoresValid(s) && Progress(s) && Contents(s)
  }

  lemma StepKeepsStoresValid(s: System, step: Step)
    requires StoresValid(s) && Enabled(s, step)
    ensures StoresValid(Take(s, step)) && s.stores <= Take(s, step).stores
  {
    if step.ManagerCommand? { CommandKeepsValid(s.manager, step.c); }
  }

  /** A command of the manager does to its hierarchy what it is for, and nothing else. */
  lemma ManagerCommandHasEffect(s: System, c: Command)
    requires Valid(s.manager) && Enabled(s, ManagerCommand(c))
    ensures Runs.Effect(s.manager, c, Take(s, ManagerCommand(c)).manager)
    ensures Take(s, ManagerCommand(c)).(manager := s.manager) == s
  {
    AfterHasEffect(s.manager, c);
  }

  lemma StepKeepsProgress(s: System, step: Step)
    requires Progress(s) && Enabled(s, step)
    ensures Progress(Take(s, step))
    ensures s.version <= Take(s, step).version && s.written <= Take(s, step).written
  {
  }

  lemma AnswerKept(stores: seq<State>, more: seq<State>, answer: Answer, version: nat)
    requires AnswerOf(stores, answer, version)
    ensures AnswerOf(stores + more, answer, version)
  {
    if version > 0 { assert (stores + more)[version - 1] == stores[version - 1]; }
  }

  lemma HoldsKept(stores: seq<State>, more: seq<State>, server: State, version: nat)
    requires Holds(stores, server, version)
    ensures Holds(stores + more, server, version)
  {
    if version > 0 { assert (stores + more)[version - 1] == stores[version - 1]; }
  }

  lemma StoringKeepsContents(s: System)
    requires Contents(s) && Enabled(s, ManagerStores)
    ensures Contents(Take(s, ManagerStores))
  {
    AnswerKept(s.stores, [s.manager], Lookup(s.cache), s.written);
    if s.backupPc.SendingHierarchy? { AnswerKept(s.stores, [s.manager], s.backupPc.answer, s.backupPc.version); }
    if s.serverPc.Received? { AnswerKept(s.stores, [s.manager], s.serverPc.answer, s.serverPc.version); }
    HoldsKept(s.stores, [s.manager], s.server, s.version);
  }

  lemma LoadingKeepsContents(s: System)
    requires Contents(s) && Enabled(s, ServerLoads)
    ensures Contents(Take(s, ServerLoads))
  {
    if s.serverPc.answer.Payload? { AnswerLoads(s.stores, s.serverPc.answer, s.serverPc.version); }
  }

  lemma AnswerLoads(stores: seq<State>, answer: Answer, version: nat)
    requires AnswerOf(stores, answer, version) && answer.Payload?
    ensures Holds(stores, Decode(answer.archive), version)
  {
  }

  lemma WritingKeepsContents(s: System)
    requires Contents(s) && Progress(s) && Enabled(s, BackupWrites)
    ensures Contents(Take(s, BackupWrites))
  {
  }

  lemma ReadingKeepsContents(s: System)
    requires Contents(s) && Enabled(s, BackupReads)
    ensures Contents(Take(s, BackupReads))
  {
  }

  lemma StepKeepsContents(s: System, step: Step)
    requires Contents(s) && Progress(s) && Enabled(s, step)
    ensures Contents(Take(s, step))
  {
    match step
    case ManagerStores => StoringKeepsContents(s);
    case ServerLoads => LoadingKeepsContents(s);
    case BackupWrites => WritingKeepsContents(s);
    case BackupReads => ReadingKeepsContents(s);
    case _ =>
  }

  lemma StepKeepsInvariant(s: System, step: Step)
    requires Invariant(s) && Enabled(s, step)
    ensures Invariant(Take(s, step)) && s.stores <= Take(s, step).stores
  {
    StepKeepsStoresValid(s, step);
    StepKeepsProgress(s, step);
    StepKeepsContents(s, step);
  }

  ghost predicate IsExecution(steps: seq<Step>, ss: seq<System>) {
    && |ss| == |steps| + 1
    && ss[0] == START
    && forall i {:trigger steps[i]} :: 0 <= i < |steps| ==> Follows(ss[i], steps[i], ss[i + 1])
  }

  ghost predicate Follows(s: System, step: Step, s': System) {
    Enabled(s, step) && s' == Take(s, step)
  }

  lemma StartInvariant()
    ensures Invariant(START)
  {
  }

  lemma FollowsInvariant(s: System, step: Step, s': System)
    requires Invariant(s) && Follows(s, step, s')
    ensures Invariant(s')
    ensures s.version <= s'.version && s.written <= s'.written && s.stores <= s'.stores
  {
    StepKeepsInvariant(s, step);
    StepKeepsProgress(s, step);
  }

  lemma {:induction false} ExecutionKeepsInvariant(steps: seq<Step>, ss: seq<System>, k: nat)
    requires IsExecution(steps, ss) && k <= |steps|
    ensures Invariant(ss[k])
  {
    if k == 0 {
      StartInvariant();
    } else {
      ExecutionKeepsInvariant(steps, ss, k - 1);
      FollowsInvariant(ss[k - 1], steps[k - 1], ss[k]);
    }
  }

  ghost function LogUpTo(steps: seq<Step>, ss: seq<System>, k: nat): seq<Effect>
    requires IsExecution(steps, ss) && k <= |steps|
  {
    if k == 0 then []
    else
      assert Follows(ss[k - 1], steps[k - 1], ss[k]);
      LogUpTo(steps, ss, k - 1) + EffectsOf(ss[k - 1], steps[k - 1])
  }

  ghost function FinishedUpTo(steps: seq<Step>, ss: seq<System>, k: nat): seq<Request>
    requires IsExecution(steps, ss) && k <= |steps|
  {
    if k == 0 then []
    else
      assert Follows(ss[k - 1], steps[k - 1], ss[k]);
      FinishedUpTo(steps, ss, k - 1) + FinishedBy(ss[k - 1], steps[k - 1])
  }

  /** However the processes interleave, the backup service does to its cache and to the outside
      what turns of its event loop do, one after the other. */
  lemma {:induction false} StepsAreEventLoop(steps: seq<Step>, ss: seq<System>, k: nat)
    requires IsExecution(steps, ss) && k <= |steps|
    ensures LikeEventLoop(ss[k], LogUpTo(steps, ss, k), FinishedUpTo(steps, ss, k))
  {
    if k > 0 {
      StepsAreEventLoop(steps, ss, k - 1);
      StepLikeEventLoop(ss[k - 1], steps[k - 1], LogUpTo(steps, ss, k - 1), FinishedUpTo(steps, ss, k - 1));
    }
  }

  /** The server is empty or holds one complete stored hierarchy; and unless a restore has yet
      to read the cache, either what the server holds or is about to load is the newest that
      has been written, or a notification is queued or about to be published. */
  ghost predicate Safe(s: System) {
    && Valid(s.server)
    && s.version <= s.written <= |s.stores|
    && (s.version == 0 ==> s.server == CLEARED)
    && (s.version > 0 ==> Valid(s.stores[s.version - 1]) && s.server == RoundTrip.Restored(s.stores[s.version - 1]))
    && (Settled(s).Some? && Settled(s).value < s.written ==> s.notifications > 0 || s.backupPc.Publishing?)
  }

  lemma InvariantIsSafe(s: System)
    requires Invariant(s)
    ensures Safe(s)
  {
    if s.version > 0 {
      assert s.stores[s.version - 1] in s.stores;
      RoundTrip.RestoredValid(s.stores[s.version - 1]);
    }
  }

  /** Safety holds in every state of every execution. */
  lemma RefreshSafety(steps: seq<Step>, ss: seq<System>, k: nat)
    requires IsExecution(steps, ss) && k <= |steps|
    ensures Safe(ss[k])
  {
    ExecutionKeepsInvariant(steps, ss, k);
    InvariantIsSafe(ss[k]);
  }

  lemma ExecutionAdvances(steps: seq<Step>, ss: seq<System>, k: nat)
    requires IsExecution(steps, ss) && k < |steps|
    ensures ss[k].version <= ss[k + 1].version && ss[k].written <= ss[k + 1].written && ss[k].stores <= ss[k + 1].stores
  {
    ExecutionKeepsInvariant(steps, ss, k);
    FollowsInvariant(ss[k], steps[k], ss[k + 1]);
  }

  /** The server never goes back to an older hierarchy, and the log of stores only grows. */
  lemma {:induction false} VersionsNeverGoBack(steps: seq<Step>, ss: seq<System>, j: nat, k: nat)
    requires IsExecution(steps, ss) && j <= k <= |steps|
    ensures ss[j].version <= ss[k].version && ss[j].written <= ss[k].written && ss[j].stores <= ss[k].stores
    decreases k - j
  {
    if j < k {
      ExecutionAdvances(steps, ss, k - 1);
      VersionsNeverGoBack(steps, ss, j, k - 1);
    }
  }

  /** No request, no answer and no notification is under way. */
  ghost predicate Quiet(s: System) {
    s.managerPc.Free? && s.backupPc.Idle? && s.serverPc.Listening? && s.notifications == 0
  }

  lemma QuietServerIsCurrent(s: System)
    requires Progress(s) && Quiet(s)
    ensures s.version == s.written == |s.stores|
  {
  }

  ghost predicate HoldsLast(stores: seq<State>, server: State) {
    && stores != [] && Valid(stores[|stores| - 1])
    && server == RoundTrip.Restored(stores[|stores| - 1])
  }

  lemma QuietServerHoldsLast(s: System)
    requires Invariant(s) && Quiet(s) && s.stores != []
    ensures HoldsLast(s.stores, s.server)
  {
    QuietServerIsCurrent(s);
    var last := s.stores[|s.stores| - 1];
    assert last in s.stores;
    assert Holds(s.stores, s.server, s.version);
  }

  /** Both can be asked, or neither, both throw or neither, and they give the same answer. */
  ghost predicate AnswersAlike(st: State, st': State, f: Filters.Filters, kpis: seq<string>, command: Node)
    requires Valid(st) && st.root.Some? && NodesQuery.ParentKnown(st, command)
    requires Valid(st') && st'.root.Some? && NodesQuery.ParentKnown(st', command)
  {
    var v, v' := NodesQuery.StartOf(st, command), NodesQuery.StartOf(st', command);
    && NodesQuery.Answer(st'.graph, f, kpis, v') == NodesQuery.Answer(st.graph, f, kpis, v)
    && (NodesQuery.Readable(st'.graph, f, v') <==> NodesQuery.Readable(st.graph, f, v))
    && st'.graph.data[v'] == st.graph.data[v]
  }

  lemma RestoredAnswersAlike(st: State, server: State, f: Filters.Filters, kpis: seq<string>, command: Node)
    requires Valid(st) && st.root.Some? && NodesQuery.ParentKnown(st, command) && server == RoundTrip.Restored(st)
    ensures Valid(server) && server.root.Some? && NodesQuery.ParentKnown(server, command)
    ensures AnswersAlike(st, server, f, kpis, command)
  {
    RoundTrip.QueriesSurvive(st, f, kpis, command);
  }

  /** The server holds the hierarchy stored last and answers every query that one could be asked
      as that one did. */
  ghost predicate UpToDate(stores: seq<State>, server: State, f: Filters.Filters, kpis: seq<string>, command: Node) {
    && HoldsLast(stores, server) && Valid(server)
    && var last := stores[|stores| - 1];
       (last.root.Some? && NodesQuery.ParentKnown(last, command) ==>
          && server.root.Some? && NodesQuery.ParentKnown(server, command)
          && AnswersAlike(last, server, f, kpis, command))
  }

  lemma RestoredUpToDate(stores: seq<State>, server: State, f: Filters.Filters, kpis: seq<string>, command: Node)
    requires HoldsLast(stores, server)
    ensures UpToDate(stores, server, f, kpis, command)
  {
    var last := stores[|stores| - 1];
    RoundTrip.RestoredValid(last);
    if last.root.Some? && NodesQuery.ParentKnown(last, command) {
      RestoredAnswersAlike(last, server, f, kpis, command);
    }
  }

  /** When nothing is under way the server answers every query as the hierarchy stored last
      did when it was stored. */
  lemma QuietServerIsUpToDate(steps: seq<Step>, ss: seq<System>, k: nat, f: Filters.Filters, kpis: seq<string>,
        command: Node)
    requires IsExecution(steps, ss) && k <= |steps| && Quiet(ss[k]) && ss[k].stores != []
    ensures UpToDate(ss[k].stores, ss[k].server, f, kpis, command)
  {
    ExecutionKeepsInvariant(steps, ss, k);
    QuietServerHoldsLast(ss[k]);
    RestoredUpToDate(ss[k].stores, ss[k].server, f, kpis, command);
  }

  /** The server holds the hierarchy stored last. Both are without a root, where every query
      replies "empty", or `search` finds the same hits in the same order and `filteroptions` the
      same values. */
  ghost predicate FindsAlike(stores: seq<State>, server: State, regex: (string, string) -> bool,
                             q: SearchCommand.Query, option: string)
  {
    && HoldsLast(stores, server) && Valid(server)
    && var last := stores[|stores| - 1];
       && (last.root.Some? <==> server.root.Some?)
       && (last.root.Some? ==>
             var t, t' := TreeOf(last.graph, last.root.value), TreeOf(server.graph, server.root.value);
             && SearchCommand.Found(regex, q, t') == SearchCommand.Found(regex, q, t)
             && FilterOptionsCommand.ValuesIn(option, SearchCommand.PreorderData(t'))
                == FilterOptionsCommand.ValuesIn(option, SearchCommand.PreorderData(t)))
  }

  lemma RestoredFindsAlike(stores: seq<State>, server: State, regex: (string, string) -> bool,
                           q: SearchCommand.Query, option: string)
    requires HoldsLast(stores, server)
    ensures FindsAlike(stores, server, regex, q, option)
  {
    var last := stores[|stores| - 1];
    RoundTrip.RestoredValid(last);
    RoundTrip.RestoredIndex(last);
    if last.root.Some? { RoundTrip.WholeTreeQueriesSurvive(last, regex, q, option); }
  }

  /** And so it does for the commands that look at the whole tree. */
  lemma QuietServerFindsAlike(steps: seq<Step>, ss: seq<System>, k: nat, regex: (string, string) -> bool,
                              q: SearchCommand.Query, option: string)
    requires IsExecution(steps, ss) && k <= |steps| && Quiet(ss[k]) && ss[k].stores != []
    ensures FindsAlike(ss[k].stores, ss[k].server, regex, q, option)
  {
    ExecutionKeepsInvariant(steps, ss, k);
    QuietServerHoldsLast(ss[k]);
    RestoredFindsAlike(ss[k].stores, ss[k].server, regex, q, option);
  }

  // ----- catching up ------------------------------------------------------------------------

  /** How many steps are still to be made before nothing is under way: a payload sent is written,
      announced, confirmed, and its notification leads to a request, a read, a reply and a load. */
  function Work(s: System): nat {
    (if s.managerPc.Sent? then 7 else 0)
    + (match s.backupPc
       case Idle => 0
       case Publishing => 6
       case ConfirmingStore => 1
       case SendingHierarchy(_, _) => 2)
    + 4 * s.notifications
    + (match s.serverPc
       case Listening => 0
       case Asked => 3
       case BeingServed => 0
       case Received(_, _) => 1)
  }

  /** Every step but those that begin something: a command, a store, an order to restore. */
  predicate Carries(step: Step) {
    !step.ManagerCommand? && !step.ManagerStores? && !step.ServerToldToRestore?
  }

  /** What a step adds to the work. */
  function Adds(step: Step): int {
    match step
    case ManagerCommand(_) => 0
    case ManagerStores => 7
    case ServerToldToRestore => 3
    case _ => -1
  }

  function AddedBy(steps: seq<Step>): int {
    if steps == [] then 0 else AddedBy(steps[..|steps| - 1]) + Adds(steps[|steps| - 1])
  }

  lemma StepWorks(s: System, step: Step)
    requires Progress(s) && Valid(s.manager) && Enabled(s, step)
    ensures Work(Take(s, step)) == Work(s) + Adds(step)
    ensures Carries(step) ==> Take(s, step).stores == s.stores
  {
  }

  lemma NoWorkMeansQuiet(s: System)
    requires Progress(s)
    ensures Work(s) == 0 <==> Quiet(s)
  {
  }

  /** As long as there is work some step that does it is enabled. */
  lemma NeverStuck(s: System) returns (step: Step)
    requires Progress(s) && !Quiet(s)
    ensures Carries(step) && Enabled(s, step)
  {
    step := match s.backupPc
      case Publishing => BackupPublishes
      case ConfirmingStore => BackupConfirms
      case SendingHierarchy(_, _) => BackupSends
      case Idle =>
        if s.managerPc.Sent? then BackupWrites
        else if s.serverPc.Asked? then BackupReads
        else if s.serverPc.Received? then ServerLoads
        else ServerNotified;
  }

  /** The steps lead from s to s', each enabled where it is made. */
  ghost predicate Leads(s: System, steps: seq<Step>, s': System)
    decreases |steps|
  {
    if steps == [] then s' == s
    else Enabled(s, steps[0]) && Leads(Take(s, steps[0]), steps[1..], s')
  }

  lemma {:induction false} LeadsOn(s: System, a: seq<Step>, t: System, b: seq<Step>, s': System)
    requires Leads(s, a, t) && Leads(t, b, s')
    ensures Leads(s, a + b, s')
    decreases |a|
  {
    if a == [] {
      assert a + b == b;
    } else {
      LeadsOn(Take(s, a[0]), a[1..], t, b, s');
      assert (a + b)[1..] == a[1..] + b;
    }
  }

  lemma LeadsOne(s: System, step: Step)
    requires Enabled(s, step)
    ensures Leads(s, [step], Take(s, step))
  {
    assert [step][1..] == [];
  }

  lemma LeadsFour(s: System, a: Step, b: Step, c: Step, d: Step)
    requires Enabled(s, a)
    requires var t := Take(s, a);
             && Enabled(t, b)
             && var u := Take(t, b);
                Enabled(u, c) && Enabled(Take(u, c), d)
    ensures Leads(s, [a, b, c, d], Take(Take(Take(Take(s, a), b), c), d))
  {
    var t := Take(s, a);
    var u := Take(t, b);
    var v := Take(u, c);
    LeadsOne(s, a);
    LeadsOne(t, b);
    LeadsOne(u, c);
    LeadsOne(v, d);
    LeadsOn(u, [c], v, [d], Take(v, d));
    LeadsOn(t, [b], u, [c] + [d], Take(v, d));
    LeadsOn(s, [a], t, [b] + ([c] + [d]), Take(v, d));
    assert [a] + ([b] + ([c] + [d])) == [a, b, c, d];
  }

  lemma StoreIsPublished(s: System) returns (s': System)
    requires Quiet(s) && Valid(s.manager)
    ensures Leads(s, [ManagerStores, BackupWrites, BackupPublishes, BackupConfirms], s')
    ensures s' == s.(cache := Some(Encode(s.manager.graph)), stores := s.stores + [s.manager],
                     written := s.written + 1, notifications := 1)
  {
    LeadsFour(s, ManagerStores, BackupWrites, BackupPublishes, BackupConfirms);
    s' := Take(Take(Take(Take(s, ManagerStores), BackupWrites), BackupPublishes), BackupConfirms);
  }

  lemma NotifiedServerLoads(s: System) returns (s': System)
    requires s.managerPc.Free? && s.backupPc.Idle? && s.serverPc.Listening? && s.notifications == 1 && s.cache.Some?
    ensures Leads(s, [ServerNotified, BackupReads, BackupSends, ServerLoads], s')
    ensures s' == s.(notifications := 0, server := Decode(s.cache.value), version := s.written)
  {
    LeadsFour(s, ServerNotified, BackupReads, BackupSends, ServerLoads);
    s' := Take(Take(Take(Take(s, ServerNotified), BackupReads), BackupSends), ServerLoads);
  }

  /** A store from a quiet state can be made, and reaches the server in eight steps. */
  lemma StoreArrives(s: System) returns (s': System)
    requires Quiet(s) && Valid(s.manager)
    ensures Leads(s, [ManagerStores, BackupWrites, BackupPublishes, BackupConfirms]
                     + [ServerNotified, BackupReads, BackupSends, ServerLoads], s')
    ensures Quiet(s') && s'.manager == s.manager && s'.stores == s.stores + [s.manager]
    ensures s'.cache == Some(Encode(s.manager.graph)) && s'.server == RoundTrip.Restored(s.manager)
  {
    var t := StoreIsPublished(s);
    s' := NotifiedServerLoads(t);
    LeadsOn(s, [ManagerStores, BackupWrites, BackupPublishes, BackupConfirms], t,
            [ServerNotified, BackupReads, BackupSends, ServerLoads], s');
  }

  lemma ExecutionWorks(steps: seq<Step>, ss: seq<System>, k: nat)
    requires IsExecution(steps, ss) && k < |steps|
    ensures Work(ss[k + 1]) == Work(ss[k]) + Adds(steps[k])
    ensures Carries(steps[k]) ==> ss[k + 1].stores == ss[k].stores
  {
    ExecutionKeepsInvariant(steps, ss, k);
    assert Follows(ss[k], steps[k], ss[k + 1]);
    StepWorks(ss[k], steps[k]);
  }

  /** Work is conserved: what is under way is what stores and orders to restore have brought in,
      seven steps and three, less the steps made since. */
  lemma {:induction false} WorkBalances(steps: seq<Step>, ss: seq<System>, k: nat)
    requires IsExecution(steps, ss) && k <= |steps|
    ensures Work(ss[k]) == AddedBy(steps[..k])
  {
    if k > 0 {
      WorkBalances(steps, ss, k - 1);
      ExecutionWorks(steps, ss, k - 1);
      assert steps[..k][..k - 1] == steps[..k - 1];
    }
  }

  lemma {:induction false} WorkIsDone(steps: seq<Step>, ss: seq<System>, k: nat, j: nat)
    requires IsExecution(steps, ss) && k <= j <= |steps|
    requires forall i :: k <= i < j ==> Carries(steps[i])
    ensures Work(ss[j]) == Work(ss[k]) - (j - k) && ss[j].stores == ss[k].stores
  {
    if k < j {
      WorkIsDone(steps, ss, k, j - 1);
      ExecutionWorks(steps, ss, j - 1);
    }
  }

  /** A stale server catches up. From any state of any execution on, if nothing new is begun, the
      steps run out after exactly the work that is under way and never get stuck before; then
      the server holds the hierarchy stored last. */
  lemma CatchesUp(steps: seq<Step>, ss: seq<System>, k: nat)
    requires IsExecution(steps, ss) && k <= |steps|
    requires forall i :: k <= i < |steps| ==> Carries(steps[i])
    ensures |steps| - k <= Work(ss[k])
    ensures if |steps| - k < Work(ss[k]) then exists step :: Carries(step) && Enabled(ss[|steps|], step)
            else Quiet(ss[|steps|]) && (ss[k].stores != [] ==> HoldsLast(ss[k].stores, ss[|steps|].server))
  {
    var s := ss[|steps|];
    WorkIsDone(steps, ss, k, |steps|);
    ExecutionKeepsInvariant(steps, ss, |steps|);
    NoWorkMeansQuiet(s);
    if Quiet(s) {
      if s.stores != [] { QuietServerHoldsLast(s); }
    } else {
      var step := NeverStuck(s);
    }
  }
}
