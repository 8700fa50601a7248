/** Validation of one whole answer of `reconcile.rebase.v2`, and what accepting it promises. */
module CoreOutput {
  import opened Prelude
  import opened Json
  import opened QueueModel
  import opened Reconciliation
  import opened Preflight

  /**
   * A response the server sent: acknowledgement lists by domain, its clock and its time (`None` if
   * the time stamp does not parse), and the canonical state as sent.
   */
  datatype SyncResponse = SyncResponse(
    revision: nat,
    acknowledgements: map<Domain, Json>,
    serverClock: Clock,
    serverTime: Option<int>,
    base: map<string, Json>)

  /** The scalars of a response: safe integers, and a clock near the server's own time. */
  ghost predicate ValidScalars(response: SyncResponse) {
    && response.revision <= MAX_SAFE_INTEGER
    && 1 <= response.serverClock.wall <= MAX_SAFE_INTEGER && response.serverClock.counter <= MAX_SAFE_INTEGER
    && response.serverTime.Some? && 1 <= response.serverTime.value <= MAX_SAFE_INTEGER
    && 0 <= response.serverClock.wall - response.serverTime.value <= MAX_CLOCK_SKEW_MS
  }

  method ValidateScalars(response: SyncResponse) returns (ok: bool)
    ensures ok <==> ValidScalars(response)
  {
    if response.revision > MAX_SAFE_INTEGER { return false; }
    var clock := response.serverClock;
    if clock.wall == 0 || clock.wall > MAX_SAFE_INTEGER || clock.counter > MAX_SAFE_INTEGER { return false; }
    if response.serverTime.None? { return false; }
    var time := response.serverTime.value;
    if time <= 0 || time > MAX_SAFE_INTEGER { return false; }
    ok := clock.wall >= time && clock.wall - time <= 300_000;
  }

  function AcknowledgementIdKey(d: Domain): string {
    if d == Commands then "commandId" else "operationId"
  }

  /** The request's list; the two newest domains default to an empty one. */
  function RequestList(request: map<Domain, Json>, d: Domain): (list: Json)
    ensures d in request ==> list == request[d]
    ensures d !in request && d in {Commands, TaskOperations, DurationOperations} ==> list == Null
    ensures d !in request && d in {AutoStartOperations, SelectedTaskOperations} ==> list == Arr([])
  {
    if d in request then request[d]
    else if d in {AutoStartOperations, SelectedTaskOperations} then Arr([]) else Null
  }

  function ResponseList(response: SyncResponse, d: Domain): Json {
    if d in response.acknowledgements then response.acknowledgements[d] else Null
  }

  function BasePairs(): seq<(string, string)> {
    [("baseTimer", "canonicalTimer"), ("baseHistory", "history"), ("baseTasks", "tasks"),
     ("baseDurationsMs", "durationsMs"), ("baseAutoStartBreaks", "autoStartBreaks"),
     ("baseSelectedTaskId", "selectedTaskId")]
  }

  function OutputKey(d: Domain): string {
    match d
    case Commands => "pending"
    case TaskOperations => "pendingTaskOperations"
    case DurationOperations => "pendingDurationOperations"
    case AutoStartOperations => "pendingAutoStartOperations"
    case SelectedTaskOperations => "pendingSelectedTaskOperations"
  }

  function DomainName(d: Domain): string {
    match d
    case Commands => "commands"
    case TaskOperations => "taskOperations"
    case DurationOperations => "durationOperations"
    case AutoStartOperations => "autoStartOperations"
    case SelectedTaskOperations => "selectedTaskOperations"
  }

  function OutputFields(): set<string> {
    {"revision", "pending", "pendingTaskOperations", "pendingDurationOperations", "pendingAutoStartOperations",
     "pendingSelectedTaskOperations", "pendingTimerDependencies", "promotedTimerOperationIds",
     "droppedTimerOperationIds", "droppedTimerIds", "baseTimer", "baseHistory", "baseTasks", "baseDurationsMs",
     "baseAutoStartBreaks", "baseSelectedTaskId", "timer", "history", "tasks", "durationsMs", "autoStartBreaks",
     "selectedTaskId", "projectionPending"}
  }

  /** What the user is shown of canonical state and queues. */
  datatype Projection = Projection(
    timer: Json, history: Json, tasks: Json, durationsMs: Json, autoStartBreaks: Json, selectedTaskId: Json)

  function ProjectionOf(members: map<string, Json>): Projection {
    Projection(Get(members, "timer"), Get(members, "history"), Get(members, "tasks"), Get(members, "durationsMs"),
               Get(members, "autoStartBreaks"), Get(members, "selectedTaskId"))
  }

  ghost predicate IsItems(j: Json) {
    j.Arr? && forall item <- j.items :: item.Obj?
  }

  /** A duration for each phase, and a selected task that is there. */
  ghost predicate WellProjected(p: Projection) {
    && (p.timer.Null? || p.timer.Obj?) && IsItems(p.history) && IsItems(p.tasks)
    && p.durationsMs.Obj? && p.durationsMs.members.Keys == PHASES
    && (forall phase <- p.durationsMs.members :: IsDuration(p.durationsMs.members[phase], PREFERENCE_DURATION_MAX_MS))
    && p.autoStartBreaks.Bool?
    && (p.selectedTaskId.Null? ||
        (p.selectedTaskId.Str? && exists task <- p.tasks.items :: Get(task.members, "id") == p.selectedTaskId))
  }

  method ValidateProjection(p: Projection) returns (ok: bool)
    ensures ok <==> WellProjected(p)
  {
    if !p.timer.Null? && !p.timer.Obj? { return false; }
    ok := ValidateItems(p.history);
    if !ok { return; }
    ok := ValidateItems(p.tasks);
    if !ok { return; }
    ok := ValidateDurations(p.durationsMs);
    if !ok { return; }
    if !p.autoStartBreaks.Bool? { return false; }
    if p.selectedTaskId.Null? { return true; }
    if !p.selectedTaskId.Str? { return false; }
    for i := 0 to |p.tasks.items|
      invariant forall k | 0 <= k < i :: Get(p.tasks.items[k].members, "id") != p.selectedTaskId
    {
      if Get(p.tasks.items[i].members, "id") == p.selectedTaskId {
        assert p.tasks.items[i] in p.tasks.items;
        return true;
      }
    }
    ok := false;
  }

  method ValidateItems(j: Json) returns (ok: bool)
    ensures ok <==> IsItems(j)
  {
    if !j.Arr? { return false; }
    for i := 0 to |j.items|
      invariant forall k | 0 <= k < i :: j.items[k].Obj?
    {
      if !j.items[i].Obj? {
        assert j.items[i] in j.items;
        return false;
      }
    }
    ok := true;
  }

  method ValidateDurations(j: Json) returns (ok: bool)
    ensures ok <==>
              && j.Obj? && j.members.Keys == PHASES
              && forall phase <- j.members :: IsDuration(j.members[phase], PREFERENCE_DURATION_MAX_MS)
  {
    if !j.Obj? || j.members.Keys != {"focus", "short_break", "long_break"} { return false; }
    ok := CheckDuration(j.members["focus"], PREFERENCE_DURATION_MAX_MS);
    if !ok { return; }
    ok := CheckDuration(j.members["short_break"], PREFERENCE_DURATION_MAX_MS);
    if !ok { return; }
    ok := CheckDuration(j.members["long_break"], PREFERENCE_DURATION_MAX_MS);
  }

  /** Replaying the safe queues on the canonical state gives the projection the core announced. */
  ghost predicate Replays(replayed: Option<Projection>, announced: Projection) {
    && replayed.Some?
    && var p := replayed.value;
       && Equal(p.timer, announced.timer) && Equal(p.history, announced.history)
       && Equal(p.tasks, announced.tasks) && Equal(p.durationsMs, announced.durationsMs)
       && Equal(p.autoStartBreaks, announced.autoStartBreaks)
       && Equal(p.selectedTaskId, announced.selectedTaskId)
  }

  function AsObject(p: Projection): Json {
    Obj(map["canonicalTimer" := p.timer, "history" := p.history, "tasks" := p.tasks, "durationsMs" := p.durationsMs,
            "autoStartBreaks" := p.autoStartBreaks, "selectedTaskId" := p.selectedTaskId])
  }

  /** The two projections are compared as objects. */
  method CompareProjection(replayed: Option<Projection>, announced: Projection) returns (same: bool)
    ensures same <==> Replays(replayed, announced)
  {
    if replayed.None? { return false; }
    ObjectsCompare(replayed.value, announced);
    same := Equal(AsObject(replayed.value), AsObject(announced));
  }

  lemma ObjectsCompare(a: Projection, b: Projection)
    ensures Equal(AsObject(a), AsObject(b)) <==> Replays(Some(a), b)
  {
    var x, y := AsObject(a).members, AsObject(b).members;
    assert x.Keys == y.Keys ==
           {"canonicalTimer", "history", "tasks", "durationsMs", "autoStartBreaks", "selectedTaskId"};
  }

  lemma SameProjectionReplays(p: Projection)
    ensures Replays(Some(p), p)
  {
    EqualIsReflexive(p.timer);
    EqualIsReflexive(p.history);
    EqualIsReflexive(p.tasks);
    EqualIsReflexive(p.durationsMs);
    EqualIsReflexive(p.autoStartBreaks);
    EqualIsReflexive(p.selectedTaskId);
  }

  type Acknowledged = map<Domain, set<string>>

  ghost predicate Covers(acknowledged: Acknowledged) {
    forall d: Domain :: d in acknowledged
  }

  datatype Accepted = Accepted(queues: Queues, parents: map<string, string>, dropped: set<string>)

  /** The core lists the command among those it dropped. */
  ghost predicate Drops(members: map<string, Json>, id: string) {
    var key := "droppedTimerOperationIds";
    key in members && members[key].Arr? && Str(id) in members[key].items
  }

  /** Of the old rows exactly those are left that were neither acknowledged nor, of commands, dropped. */
  ghost predicate LeavesRest(d: Domain, members: map<string, Json>, before: Queue, acknowledged: set<string>,
                             after: Queue) {
    forall id: string ::
      id in after <==> id in before && id !in acknowledged && !(d == Commands && Drops(members, id))
  }

  ghost predicate AllLeaveRest(members: map<string, Json>, before: Queues, acknowledged: Acknowledged, after: Queues)
    requires Covers(acknowledged)
  {
    forall d: Domain {:trigger LeavesRest(d, members, before.At(d), acknowledged[d], after.At(d))} ::
      LeavesRest(d, members, before.At(d), acknowledged[d], after.At(d))
  }

  /** What acceptance promises about each queue. */
  ghost predicate AcceptedQueue(d: Domain, before: Queue, after: Queue, acknowledged: set<string>,
                                dropped: set<string>) {
    && after.Keys == RetainedIds(d, before, acknowledged, dropped)
    && Keyed(after) && ShapedRows(d, after)
    && forall id <- after :: Alike(d, before[id], after[id])
  }

  ghost predicate AcceptedQueues(before: Queues, after: Queues, acknowledged: Acknowledged, dropped: set<string>)
    requires Covers(acknowledged)
  {
    forall d: Domain {:trigger AcceptedQueue(d, before.At(d), after.At(d), acknowledged[d], dropped)} ::
      AcceptedQueue(d, before.At(d), after.At(d), acknowledged[d], dropped)
  }

  ghost predicate AcceptedOutput(before: Tables, acknowledged: Acknowledged, a: Accepted)
    requires Covers(acknowledged)
  {
    && a.dropped <= before.queues.commands.Keys - acknowledged[Commands]
    && AcceptedQueues(before.queues, a.queues, acknowledged, a.dropped)
    && ParentsRetained(a.parents, a.queues.commands)
  }

  ghost predicate ParentsRetained(parents: map<string, string>, commands: Queue) {
    forall id <- parents :: id in commands && parents[id] in commands && parents[id] != id
  }

  // ----- The validator -----

  /** The retained rows by identifier; a later duplicate would win. */
  function Rows(operations: seq<Payload>, show: Json -> string): (rows: Queue)
    ensures forall id <- rows :: rows[id] in operations && IdText(rows[id], show) == id
    ensures rows.Keys == set id <- TextsOf(operations, show)
  {
    if operations == [] then map[]
    else
      var front, last := operations[..|operations| - 1], operations[|operations| - 1];
      assert operations == front + [last];
      assert TextsOf(operations, show) == TextsOf(front, show) + [IdText(last, show)];
      Rows(front, show)[IdText(last, show) := last]
  }

  function Operations(d: Domain, members: map<string, Json>, deviceId: string): Option<seq<Payload>> {
    NormalizedQueue(d, Get(members, OutputKey(d)), deviceId)
  }

  /** The texts of an identifier list. */
  function Texts(value: Json): set<string> {
    if value.Arr? then set item <- value.items | item.Str? :: item.s else {}
  }

  function Dropped(members: map<string, Json>): set<string> {
    Texts(Get(members, "droppedTimerOperationIds"))
  }

  function ProjectedItems(d: Domain, members: map<string, Json>): Json {
    var projected := Get(members, "projectionPending");
    if projected.Obj? then Get(projected.members, DomainName(d)) else Null
  }

  /** Under which members the core answers. */
  lemma WhereQueuesStand(members: map<string, Json>, deviceId: string)
    ensures Operations(Commands, members, deviceId) == NormalizedQueue(Commands, Get(members, "pending"), deviceId)
    ensures Operations(TaskOperations, members, deviceId) ==
            NormalizedQueue(TaskOperations, Get(members, "pendingTaskOperations"), deviceId)
    ensures Operations(DurationOperations, members, deviceId) ==
            NormalizedQueue(DurationOperations, Get(members, "pendingDurationOperations"), deviceId)
    ensures Operations(AutoStartOperations, members, deviceId) ==
            NormalizedQueue(AutoStartOperations, Get(members, "pendingAutoStartOperations"), deviceId)
    ensures Operations(SelectedTaskOperations, members, deviceId) ==
            NormalizedQueue(SelectedTaskOperations, Get(members, "pendingSelectedTaskOperations"), deviceId)
  {
  }

  lemma WhereProjectedQueuesStand(members: map<string, Json>, projected: map<string, Json>)
    requires "projectionPending" in members && members["projectionPending"] == Obj(projected)
    ensures ProjectedItems(Commands, members) == Get(projected, "commands")
    ensures ProjectedItems(TaskOperations, members) == Get(projected, "taskOperations")
    ensures ProjectedItems(DurationOperations, members) == Get(projected, "durationOperations")
    ensures ProjectedItems(AutoStartOperations, members) == Get(projected, "autoStartOperations")
    ensures ProjectedItems(SelectedTaskOperations, members) == Get(projected, "selectedTaskOperations")
  {
  }

  ghost predicate DomainAgrees(d: Domain, members: map<string, Json>, local: Queue, acknowledged: set<string>,
                               deviceId: string, show: Json -> string) {
    && Operations(d, members, deviceId).Some?
    && var operations := Operations(d, members, deviceId).value;
       && QueueAgrees(d, operations, local, RetainedIds(d, local, acknowledged, Dropped(members)), show)
       && SafelyProjected(d, ProjectedItems(d, members), operations, deviceId, show)
  }

  ghost predicate IdSetsAgree(members: map<string, Json>, available: set<string>) {
    && IdList(Get(members, "droppedTimerOperationIds"))
    && IdList(Get(members, "promotedTimerOperationIds"))
    && IdList(Get(members, "droppedTimerIds"))
    && Dropped(members) <= available
    && Texts(Get(members, "promotedTimerOperationIds")) <= available - Dropped(members)
  }

  /** The canonical state the core started from is the server's, member by member. */
  ghost predicate BaseAgrees(members: map<string, Json>, base: map<string, Json>) {
    && Equal(Get(members, "baseTimer"), Get(base, "canonicalTimer"))
    && Equal(Get(members, "baseHistory"), Get(base, "history"))
    && Equal(Get(members, "baseTasks"), Get(base, "tasks"))
    && Equal(Get(members, "baseDurationsMs"), Get(base, "durationsMs"))
    && Equal(Get(members, "baseAutoStartBreaks"), Get(base, "autoStartBreaks"))
    && Equal(Get(members, "baseSelectedTaskId"), Get(base, "selectedTaskId"))
  }

  function DomainNames(): set<string> {
    {"commands", "taskOperations", "durationOperations", "autoStartOperations", "selectedTaskOperations"}
  }

  /** What the validator demands of the core's answer. */
  ghost predicate OutputAgrees(value: Json, before: Tables, acknowledged: Acknowledged, response: SyncResponse,
                               deviceId: string, show: Json -> string)
    requires Covers(acknowledged)
  {
    && value.Obj? && value.members.Keys == OutputFields()
    && Equal(Get(value.members, "revision"), Int(response.revision))
    && Get(value.members, "projectionPending").Obj?
    && Get(value.members, "projectionPending").members.Keys == DomainNames()
    && IdSetsAgree(value.members, before.queues.commands.Keys - acknowledged[Commands])
    && DomainsAgree(value.members, before.queues, acknowledged, deviceId, show)
    && DependenciesAgree(Get(value.members, "pendingTimerDependencies"),
                         RetainedIds(Commands, before.queues.commands, acknowledged[Commands], Dropped(value.members)))
    && BaseAgrees(value.members, response.base)
    && WellProjected(ProjectionOf(value.members))
  }

  ghost predicate DomainsAgree(members: map<string, Json>, local: Queues, acknowledged: Acknowledged,
                               deviceId: string, show: Json -> string)
    requires Covers(acknowledged)
  {
    forall d: Domain {:trigger DomainAgrees(d, members, local.At(d), acknowledged[d], deviceId, show)} ::
      DomainAgrees(d, members, local.At(d), acknowledged[d], deviceId, show)
  }

  function RetainedRows(d: Domain, members: map<string, Json>, deviceId: string, show: Json -> string): Queue {
    match Operations(d, members, deviceId)
    case Some(operations) => Rows(operations, show)
    case None => map[]
  }

  function RetainedQueues(members: map<string, Json>, deviceId: string, show: Json -> string): Queues {
    Queues(RetainedRows(Commands, members, deviceId, show), RetainedRows(TaskOperations, members, deviceId, show),
           RetainedRows(DurationOperations, members, deviceId, show),
           RetainedRows(AutoStartOperations, members, deviceId, show),
           RetainedRows(SelectedTaskOperations, members, deviceId, show))
  }

  /** The queues are those of the answer. */
  ghost predicate Answered(members: map<string, Json>, queues: Queues, deviceId: string, show: Json -> string) {
    forall d: Domain {:trigger RetainedRows(d, members, deviceId, show)} ::
      queues.At(d) == RetainedRows(d, members, deviceId, show)
  }

  method ValidateIdSets(members: map<string, Json>, available: set<string>) returns (ok: bool)
    ensures ok <==> IdSetsAgree(members, available)
  {
    var dropped := ValidateIdList(Get(members, "droppedTimerOperationIds"));
    var promoted := ValidateIdList(Get(members, "promotedTimerOperationIds"));
    var timers := ValidateIdList(Get(members, "droppedTimerIds"));
    if dropped.None? || promoted.None? || timers.None? { return false; }
    assert dropped.value == Dropped(members);
    assert promoted.value == Texts(Get(members, "promotedTimerOperationIds"));
    ok := dropped.value <= available && promoted.value <= available - dropped.value;
  }

  method ValidateDomain(d: Domain, members: map<string, Json>, local: Queue, acknowledged: set<string>,
                        deviceId: string, show: Json -> string) returns (ok: bool)
    ensures ok <==> DomainAgrees(d, members, local, acknowledged, deviceId, show)
  {
    var operations := Operations(d, members, deviceId);
    if operations.None? { return false; }
    ok := ValidateQueue(d, operations.value, local, acknowledged, Dropped(members), show);
    if !ok { return; }
    var projected := ValidateProjected(d, ProjectedItems(d, members), operations.value, deviceId, show);
    ok := projected.Some?;
  }

  method ValidateBase(members: map<string, Json>, base: map<string, Json>) returns (ok: bool)
    ensures ok <==> BaseAgrees(members, base)
  {
    for i := 0 to |BasePairs()|
      invariant forall k | 0 <= k < i :: Equal(Get(members, BasePairs()[k].0), Get(base, BasePairs()[k].1))
    {
      if !Equal(Get(members, BasePairs()[i].0), Get(base, BasePairs()[i].1)) { return false; }
    }
    ghost var pairs := BasePairs();
    assert Equal(Get(members, pairs[0].0), Get(base, pairs[0].1));
    assert Equal(Get(members, pairs[1].0), Get(base, pairs[1].1));
    assert Equal(Get(members, pairs[2].0), Get(base, pairs[2].1));
    assert Equal(Get(members, pairs[3].0), Get(base, pairs[3].1));
    assert Equal(Get(members, pairs[4].0), Get(base, pairs[4].1));
    assert Equal(Get(members, pairs[5].0), Get(base, pairs[5].1));
    ok := true;
  }

  method ValidateDomains(members: map<string, Json>, local: Queues, acknowledged: Acknowledged,
                         deviceId: string, show: Json -> string) returns (ok: bool)
    requires Covers(acknowledged)
    ensures ok <==> DomainsAgree(members, local, acknowledged, deviceId, show)
  {
    for i := 0 to |DOMAINS|
      invariant forall d: Domain | d in DOMAINS[..i] ::
                  DomainAgrees(d, members, local.At(d), acknowledged[d], deviceId, show)
    {
      var d := DOMAINS[i];
      ok := ValidateDomain(d, members, local.At(d), acknowledged[d], deviceId, show);
      if !ok { return; }
      OneMore(DOMAINS, i);
    }
    ok := true;
    AllTaken(DOMAINS);
    forall d: Domain ensures DomainAgrees(d, members, local.At(d), acknowledged[d], deviceId, show) { EveryDomain(d); }
  }

  /** Accepts exactly the answers that agree, and keeps what they retain. */
  method ValidateOutput(value: Json, before: Tables, acknowledged: Acknowledged, response: SyncResponse,
                        deviceId: string, show: Json -> string) returns (accepted: Option<Accepted>)
    requires Covers(acknowledged) && WellFormed(before)
    ensures accepted.Some? <==> OutputAgrees(value, before, acknowledged, response, deviceId, show)
    ensures accepted.Some? ==>
              && AcceptedOutput(before, acknowledged, accepted.value)
              && Answered(value.members, accepted.value.queues, deviceId, show)
              && accepted.value.dropped == Dropped(value.members)
              && AllLeaveRest(value.members, before.queues, acknowledged, accepted.value.queues)
  {
    if !value.Obj? || value.members.Keys != OutputFields() { return None; }
    var members := value.members;
    if !Equal(Get(members, "revision"), Int(response.revision)) { return None; }
    var projected := Get(members, "projectionPending");
    if !projected.Obj? || projected.members.Keys != DomainNames() { return None; }
    var idSets := ValidateIdSets(members, before.queues.commands.Keys - acknowledged[Commands]);
    if !idSets { return None; }
    var domains := ValidateDomains(members, before.queues, acknowledged, deviceId, show);
    if !domains { return None; }
    var queues := RetainedQueues(members, deviceId, show);
    RetainedQueuesAreAccepted(members, before, acknowledged, deviceId, show);
    assert AcceptedQueue(Commands, before.queues.At(Commands), queues.At(Commands), acknowledged[Commands],
                         Dropped(members));
    var dependencies := ValidateDependencies(Get(members, "pendingTimerDependencies"), queues.commands.Keys);
    if dependencies.None? { return None; }
    var projection := ValidateProjection(ProjectionOf(members));
    if !projection { return None; }
    var baseAgrees := ValidateBase(members, response.base);
    if !baseAgrees { return None; }
    var parents := ParentsOf(dependencies.value);
    RestIsLeft(members, before.queues, acknowledged, queues);
    ParentsAreRetained(dependencies.value, Get(members, "pendingTimerDependencies").items, queues.commands.Keys);
    accepted := Some(Accepted(queues, parents, Dropped(members)));
  }

  lemma RetainedQueuesAreAccepted(members: map<string, Json>, before: Tables, acknowledged: Acknowledged,
                                  deviceId: string, show: Json -> string)
    requires Covers(acknowledged) && WellFormed(before)
    requires DomainsAgree(members, before.queues, acknowledged, deviceId, show)
    ensures AcceptedQueues(before.queues, RetainedQueues(members, deviceId, show), acknowledged, Dropped(members))
    ensures Answered(members, RetainedQueues(members, deviceId, show), deviceId, show)
  {
    var queues := RetainedQueues(members, deviceId, show);
    forall d: Domain
      ensures AcceptedQueue(d, before.queues.At(d), queues.At(d), acknowledged[d], Dropped(members))
      ensures queues.At(d) == RetainedRows(d, members, deviceId, show)
    {
      RetainedAt(d, members, deviceId, show);
      assert DomainAgrees(d, members, before.queues.At(d), acknowledged[d], deviceId, show);
      assert DomainFormed(before, d);
      AgreeingQueueIsAccepted(d, Operations(d, members, deviceId).value, before.queues.At(d), acknowledged[d],
                              Dropped(members), show);
    }
  }

  lemma DroppedAreListed(members: map<string, Json>, id: string)
    ensures id in Dropped(members) <==> Drops(members, id)
  {
    var list := Get(members, "droppedTimerOperationIds");
    if Drops(members, id) { assert Str(id) in list.items && Str(id).Str?; }
  }

  lemma RestIsLeft(members: map<string, Json>, before: Queues, acknowledged: Acknowledged, after: Queues)
    requires Covers(acknowledged) && AcceptedQueues(before, after, acknowledged, Dropped(members))
    ensures AllLeaveRest(members, before, acknowledged, after)
  {
    forall d: Domain ensures LeavesRest(d, members, before.At(d), acknowledged[d], after.At(d)) {
      assert AcceptedQueue(d, before.At(d), after.At(d), acknowledged[d], Dropped(members));
      forall id: string
        ensures id in after.At(d) <==>
                  id in before.At(d) && id !in acknowledged[d] && !(d == Commands && Drops(members, id))
      {
        DroppedAreListed(members, id);
      }
    }
  }

  lemma RetainedAt(d: Domain, members: map<string, Json>, deviceId: string, show: Json -> string)
    ensures RetainedQueues(members, deviceId, show).At(d) == RetainedRows(d, members, deviceId, show)
  {
  }

  lemma ParentsAreRetained(dependencies: seq<Dependency>, items: seq<Json>, retained: set<string>)
    requires |dependencies| == |items|
    requires forall i | 0 <= i < |items| :: ParsedDependency(items[i], retained) == Some(dependencies[i])
    ensures forall id <- ParentsOf(dependencies) ::
              var parent := ParentsOf(dependencies)[id]; id in retained && parent in retained && parent != id
  {
  }

  function ParentsOf(dependencies: seq<Dependency>): (parents: map<string, string>)
    ensures forall id <- parents :: exists d <- dependencies :: d.child == id && d.parent == parents[id]
    ensures forall d <- dependencies :: d.child in parents
  {
    if dependencies == [] then map[]
    else
      var front, last := dependencies[..|dependencies| - 1], dependencies[|dependencies| - 1];
      assert dependencies == front + [last];
      ParentsOf(front)[last.child := last.parent]
  }

  lemma AlikeKeepsIdentifier(d: Domain, original: Payload, operation: Payload, id: string)
    requires Alike(d, original, operation) && Get(original, "id") == Str(id)
    ensures Get(operation, "id") == Str(id)
  {
    assert "id" !in Adjustable(d);
    assert Equal(Get(original, "id"), Get(operation, "id"));
  }

  /** What agrees with the local rows is those rows minus the acknowledged and the dropped. */
  lemma AgreeingQueueIsAccepted(d: Domain, operations: seq<Payload>, local: Queue, acknowledged: set<string>,
                                dropped: set<string>, show: Json -> string)
    requires Keyed(local) && forall p <- operations :: Shaped(d, p)
    requires QueueAgrees(d, operations, local, RetainedIds(d, local, acknowledged, dropped), show)
    ensures AcceptedQueue(d, local, Rows(operations, show), acknowledged, dropped)
  {
    var rows := Rows(operations, show);
    assert rows.Keys == RetainedIds(d, local, acknowledged, dropped);
    forall id | id in rows
      ensures Alike(d, local[id], rows[id]) && Get(rows[id], "id") == Str(id) && Shaped(d, rows[id])
    {
      assert rows[id] in operations && IdText(rows[id], show) == id;
      AlikeKeepsIdentifier(d, local[id], rows[id], id);
    }
  }
}
