/** A sync that commits although a queued command comes back as another object. */
module NullTask {
  import opened Prelude
  import opened Json
  import opened QueueModel
  import opened Reconciliation
  import opened Preflight
  import opened CoreOutput
  import opened QueueTransitions

  /** Nothing but one command is queued. */
  function Lone(id: string, p: Payload): Tables {
    Tables(Queues(map[id := p], map[], map[], map[], map[]), map[], map[], ClockOf(p), SequenceOf(p), None, 0)
  }

  function EmptyLists(): map<Domain, Json> {
    map d: Domain | d in DOMAINS :: Arr([])
  }

  /** The server has nothing, and was sent nothing. */
  function Quiet(): SyncResponse {
    SyncResponse(0, EmptyLists(), Clock(1, 0), Some(1), map[])
  }

  const LISTS := {"pendingTaskOperations", "pendingDurationOperations", "pendingAutoStartOperations",
                  "pendingSelectedTaskOperations", "pendingTimerDependencies", "promotedTimerOperationIds",
                  "droppedTimerOperationIds", "droppedTimerIds", "history", "tasks"}

  function AnswerMember(key: string, q: Payload, deviceId: string): Json {
    if key == "revision" then Int(0)
    else if key == "pending" then Arr([AsSent(q, deviceId)])
    else if key == "projectionPending" then Obj(map name | name in DomainNames() :: Arr([]))
    else if key in LISTS then Arr([])
    else if key == "durationsMs" then Obj(map phase | phase in PHASES :: Int(1_500_000))
    else if key == "autoStartBreaks" then Bool(false)
    else Null
  }

  /** The core retains the one command, as `q`. */
  function Answer(q: Payload, deviceId: string): map<string, Json> {
    map key | key in OutputFields() :: AnswerMember(key, q, deviceId)
  }

  lemma NothingSent(d: Domain)
    ensures RequestList(EmptyLists(), d) == Arr([]) && ResponseList(Quiet(), d) == Arr([])
    ensures Sent(EmptyLists())[d] == {} && Acknowledges(EmptyLists(), Quiet(), d)
  {
    EveryDomain(d);
    assert SentIds(EmptyLists(), d) == {};
    assert AcknowledgesExactly([], [], AcknowledgementIdKey(d)) by { assert IdsOf([], "id") == []; }
  }

  lemma ListsAreEmpty(q: Payload, deviceId: string, key: string)
    requires key in LISTS
    ensures Get(Answer(q, deviceId), key) == Arr([])
  {
    assert key in OutputFields();
  }

  lemma ScalarsOf(q: Payload, deviceId: string)
    ensures Get(Answer(q, deviceId), "revision") == Int(0)
    ensures Get(Answer(q, deviceId), "pending") == Arr([AsSent(q, deviceId)])
    ensures Get(Answer(q, deviceId), "projectionPending") == Obj(map name | name in DomainNames() :: Arr([]))
  {
    assert {"revision", "pending", "projectionPending"} <= OutputFields();
  }

  lemma IdSetsOf(q: Payload, deviceId: string, available: set<string>)
    ensures IdSetsAgree(Answer(q, deviceId), available) && Dropped(Answer(q, deviceId)) == {}
  {
    ListsAreEmpty(q, deviceId, "droppedTimerOperationIds");
    ListsAreEmpty(q, deviceId, "promotedTimerOperationIds");
    ListsAreEmpty(q, deviceId, "droppedTimerIds");
  }

  lemma BaseOf(q: Payload, deviceId: string)
    ensures BaseAgrees(Answer(q, deviceId), map[])
  {
    BaseIsNull(q, deviceId, "baseTimer");
    BaseIsNull(q, deviceId, "baseHistory");
    BaseIsNull(q, deviceId, "baseTasks");
    BaseIsNull(q, deviceId, "baseDurationsMs");
    BaseIsNull(q, deviceId, "baseAutoStartBreaks");
    BaseIsNull(q, deviceId, "baseSelectedTaskId");
  }

  lemma BaseIsNull(q: Payload, deviceId: string, key: string)
    requires key in {"baseTimer", "baseHistory", "baseTasks", "baseDurationsMs", "baseAutoStartBreaks",
                     "baseSelectedTaskId"}
    ensures Get(Answer(q, deviceId), key) == Null
  {
    assert key !in LISTS && key !in {"revision", "pending", "projectionPending", "durationsMs", "autoStartBreaks"};
  }

  lemma ProjectionOfAnswer(q: Payload, deviceId: string)
    ensures WellProjected(ProjectionOf(Answer(q, deviceId)))
  {
    ListsAreEmpty(q, deviceId, "history");
    ListsAreEmpty(q, deviceId, "tasks");
    assert {"timer", "durationsMs", "autoStartBreaks", "selectedTaskId"} <= OutputFields();
    assert Get(Answer(q, deviceId), "durationsMs") == Obj(map phase | phase in PHASES :: Int(1_500_000));
  }

  lemma ProjectedOf(d: Domain, q: Payload, deviceId: string)
    ensures ProjectedItems(d, Answer(q, deviceId)) == Arr([])
  {
    ScalarsOf(q, deviceId);
    assert DomainName(d) in DomainNames();
  }

  lemma OperationsOf(d: Domain, q: Payload, deviceId: string)
    requires NormalizedOperation(Commands, AsSent(q, deviceId), deviceId) == Some(q)
    ensures Operations(d, Answer(q, deviceId), deviceId) == Some(if d == Commands then [q] else [])
  {
    ScalarsOf(q, deviceId);
    if d == Commands {
      assert NormalizedQueue(d, Arr([AsSent(q, deviceId)]), deviceId).value == [q];
    } else {
      ListsAreEmpty(q, deviceId, OutputKey(d));
      assert NormalizedQueue(d, Arr([]), deviceId) == Some([]);
    }
  }

  lemma RowsOf(d: Domain, id: string, q: Payload, deviceId: string, show: Json -> string)
    requires NormalizedOperation(Commands, AsSent(q, deviceId), deviceId) == Some(q) && Get(q, "id") == Str(id)
    ensures RetainedRows(d, Answer(q, deviceId), deviceId, show) == if d == Commands then map[id := q] else map[]
  {
    OperationsOf(d, q, deviceId);
    assert Rows([], show) == map[];
    if d == Commands {
      assert Rows([q], show) == Rows([q][..0], show)[IdText(q, show) := q];
    }
  }

  lemma QueueOf(d: Domain, id: string, p: Payload, q: Payload, show: Json -> string)
    requires Get(q, "id") == Str(id) && Alike(Commands, p, q)
    ensures var local: Queue := if d == Commands then map[id := p] else map[];
            QueueAgrees(d, if d == Commands then [q] else [], local, RetainedIds(d, local, {}, {}), show)
  {
    var operations := if d == Commands then [q] else [];
    var local: Queue := if d == Commands then map[id := p] else map[];
    assert TextsOf(operations, show) == if d == Commands then [id] else [];
    assert RetainedIds(d, local, {}, {}) == local.Keys;
  }

  lemma DomainOf(d: Domain, id: string, p: Payload, q: Payload, deviceId: string, show: Json -> string)
    requires NormalizedOperation(Commands, AsSent(q, deviceId), deviceId) == Some(q) && Get(q, "id") == Str(id)
    requires Alike(Commands, p, q)
    ensures DomainAgrees(d, Answer(q, deviceId), Lone(id, p).queues.At(d), {}, deviceId, show)
  {
    OperationsOf(d, q, deviceId);
    ProjectedOf(d, q, deviceId);
    IdSetsOf(q, deviceId, {});
    QueueOf(d, id, p, q, show);
    assert Lone(id, p).queues.At(d) == if d == Commands then map[id := p] else map[];
  }

  lemma DomainsOf(id: string, p: Payload, q: Payload, deviceId: string, show: Json -> string)
    requires NormalizedOperation(Commands, AsSent(q, deviceId), deviceId) == Some(q) && Get(q, "id") == Str(id)
    requires Alike(Commands, p, q)
    ensures DomainsAgree(Answer(q, deviceId), Lone(id, p).queues, Sent(EmptyLists()), deviceId, show)
  {
    forall d: Domain
      ensures DomainAgrees(d, Answer(q, deviceId), Lone(id, p).queues.At(d), Sent(EmptyLists())[d], deviceId, show)
    {
      NothingSent(d);
      DomainOf(d, id, p, q, deviceId, show);
    }
  }

  lemma NoDependencies(q: Payload, deviceId: string, retained: set<string>)
    ensures DependenciesAgree(Get(Answer(q, deviceId), "pendingTimerDependencies"), retained)
  {
    ListsAreEmpty(q, deviceId, "pendingTimerDependencies");
  }

  lemma AnswerAgrees(id: string, p: Payload, q: Payload, deviceId: string, show: Json -> string)
    requires NormalizedOperation(Commands, AsSent(q, deviceId), deviceId) == Some(q) && Get(q, "id") == Str(id)
    requires Alike(Commands, p, q)
    ensures OutputAgrees(Obj(Answer(q, deviceId)), Lone(id, p), Sent(EmptyLists()), Quiet(), deviceId, show)
  {
    assert Answer(q, deviceId).Keys == OutputFields();
    var commands := Lone(id, p).queues.commands;
    ScalarsOf(q, deviceId);
    IdSetsOf(q, deviceId, commands.Keys - Sent(EmptyLists())[Commands]);
    NoDependencies(q, deviceId,
                   RetainedIds(Commands, commands, Sent(EmptyLists())[Commands], Dropped(Answer(q, deviceId))));
    BaseOf(q, deviceId);
    ProjectionOfAnswer(q, deviceId);
    DomainsOf(id, p, q, deviceId, show);
  }

  lemma LoneIsConsistent(id: string, p: Payload)
    requires Shaped(Commands, p) && Get(p, "id") == Str(id)
    ensures Consistent(Lone(id, p), History([], {}, {}))
  {
    var t := Lone(id, p);
    forall d: Domain ensures DomainFormed(t, d) && RowsCovered(t.queues.At(d), t.hlc) {}
  }

  lemma LonePasses(id: string, p: Payload, deviceId: string, readers: Readers)
    requires ValidCommand(id, p, readers) && deviceId != ""
    ensures Preflighted(Lone(id, p), deviceId, readers)
  {
    var t := Lone(id, p);
    RowClockIsBounded(Commands, id, p, deviceId, readers);
    forall d: Domain ensures QueuePasses(d, t.queues.At(d), deviceId, readers) {}
  }

  lemma KeptOf(d: Domain, id: string, p: Payload, q: Payload, deviceId: string, show: Json -> string)
    requires NormalizedOperation(Commands, AsSent(q, deviceId), deviceId) == Some(q) && Get(q, "id") == Str(id)
    requires !Equal(Obj(q), Obj(p))
    ensures Kept(Lone(id, p).queues.At(d), RetainedRows(d, Answer(q, deviceId), deviceId, show)) ==
              if d == Commands then map[id := q] else map[]
  {
    RowsOf(d, id, q, deviceId, show);
    assert KeptRow(map[id := p], id, q) == q;
    assert Lone(id, p).queues.At(Commands) == map[id := p];
  }

  lemma AnswerOfStays(id: string, p: Payload, q: Payload, now: nat, deviceId: string, show: Json -> string,
                      readers: Readers)
    requires NormalizedOperation(Commands, AsSent(q, deviceId), deviceId) == Some(q) && !Equal(Obj(q), Obj(p))
    requires ValidCommand(id, q, readers) && ClockOf(q).wall <= now + MAX_CLOCK_SKEW_MS
    ensures AnswerStays(Lone(id, p).queues, Answer(q, deviceId), now, deviceId, show, readers)
  {
    forall d: Domain
      ensures RowsStay(d, Lone(id, p).queues.At(d), RetainedRows(d, Answer(q, deviceId), deviceId, show), now, deviceId,
                       readers)
    {
      KeptOf(d, id, p, q, deviceId, show);
    }
  }

  lemma NothingSentIsAcknowledged()
    ensures AcknowledgesAll(EmptyLists(), Quiet())
  {
    forall d: Domain ensures Acknowledges(EmptyLists(), Quiet(), d) { NothingSent(d); }
  }

  lemma OnlyTheAnswerIsKept(id: string, p: Payload, q: Payload, rows: Queues, deviceId: string, show: Json -> string)
    requires NormalizedOperation(Commands, AsSent(q, deviceId), deviceId) == Some(q) && Get(q, "id") == Str(id)
    requires !Equal(Obj(q), Obj(p)) && KeepsAnswer(Lone(id, p).queues, Answer(q, deviceId), rows, deviceId, show)
    ensures rows.commands == map[id := q]
  {
    KeptOf(Commands, id, p, q, deviceId, show);
    assert rows.At(Commands) ==
           Kept(Lone(id, p).queues.At(Commands), RetainedRows(Commands, Answer(q, deviceId), deviceId, show));
  }

  /** A row that passes and comes back as another one that passes and compares alike. */
  ghost predicate ComesBackAs(id: string, p: Payload, q: Payload, now: nat, deviceId: string, readers: Readers) {
    && ValidCommand(id, p, readers) && ValidCommand(id, q, readers) && Alike(Commands, p, q)
    && NormalizedOperation(Commands, AsSent(q, deviceId), deviceId) == Some(q) && !Equal(Obj(q), Obj(p))
    && deviceId != "" && ClockOf(q).wall <= now + MAX_CLOCK_SKEW_MS
  }

  lemma ComingBackIsInstallable(id: string, p: Payload, q: Payload, now: nat, deviceId: string, show: Json -> string,
                                readers: Readers)
    requires ComesBackAs(id, p, q, now, deviceId, readers)
    ensures Installable(Lone(id, p), EmptyLists(), Quiet(), Obj(Answer(q, deviceId)), now, deviceId, show, readers)
  {
    LonePasses(id, p, deviceId, readers);
    NothingSentIsAcknowledged();
    assert Get(q, "id") == Str(id);
    AnswerAgrees(id, p, q, deviceId, show);
    AnswerOfStays(id, p, q, now, deviceId, show, readers);
  }

  lemma NullTaskComesBack(id: string, p: Payload, now: nat, deviceId: string, readers: Readers)
    requires ValidCommand(id, p, readers) && Shaped(Commands, p) && !IsRetarget(p) && "taskId" !in p
    requires deviceId != "" && ClockOf(p).wall <= now + MAX_CLOCK_SKEW_MS
    ensures ComesBackAs(id, p, p["taskId" := Null], now, deviceId, readers)
  {
    NullTaskMayComeAndGo(id, p, deviceId, readers);
    NullTaskReadsAlike(p);
    assert ClockOf(p["taskId" := Null]) == ClockOf(p);
  }

  /**
   * Any command but a retarget, queued without a task: the core may give it a null one, and the sync
   * that brings it commits.
   */
  lemma NullTaskIsInstalled(id: string, p: Payload, now: nat, deviceId: string, show: Json -> string, readers: Readers)
    requires ValidCommand(id, p, readers) && Shaped(Commands, p) && !IsRetarget(p) && "taskId" !in p
    requires deviceId != "" && ClockOf(p).wall <= now + MAX_CLOCK_SKEW_MS
    ensures Consistent(Lone(id, p), History([], {}, {})) && TogglesNullTask(Commands, p, p["taskId" := Null])
    ensures Installable(Lone(id, p), EmptyLists(), Quiet(), Obj(Answer(p["taskId" := Null], deviceId)), now, deviceId,
                        show, readers)
    ensures var announced := ProjectionOf(Answer(p["taskId" := Null], deviceId)); Replays(Some(announced), announced)
    ensures forall rows: Queues ::
              KeepsAnswer(Lone(id, p).queues, Answer(p["taskId" := Null], deviceId), rows, deviceId, show) ==>
                rows.commands == map[id := p["taskId" := Null]]
  {
    var q := p["taskId" := Null];
    NullTaskComesBack(id, p, now, deviceId, readers);
    LoneIsConsistent(id, p);
    ComingBackIsInstallable(id, p, q, now, deviceId, show, readers);
    SameProjectionReplays(ProjectionOf(Answer(q, deviceId)));
    forall rows: Queues | KeepsAnswer(Lone(id, p).queues, Answer(q, deviceId), rows, deviceId, show)
      ensures rows.commands == map[id := q]
    {
      OnlyTheAnswerIsKept(id, p, q, rows, deviceId, show);
    }
  }

  const OCCURRED := "2024-05-01T08:00:00.000Z"
  const OCCURRED_MS := 1_714_550_400_000

  function Pause(): Payload {
    map["id" := Str("c"), "deviceSequence" := Int(1), "timerId" := Str("t"), "type" := Str("pause"),
        "phase" := Str("focus"), "plannedDurationMs" := Int(1_500_000), "observedElapsedMs" := Int(60_000),
        "occurredAt" := Str(OCCURRED), "hlcWallMs" := Int(OCCURRED_MS), "hlcCounter" := Int(0)]
  }

  lemma PauseHasClock(readers: Readers)
    requires readers.instant(OCCURRED) == Some(OCCURRED_MS)
    ensures HasClock(Pause(), readers, false)
  {
    assert Get(Pause(), "occurredAt") == Str(OCCURRED);
    assert Get(Pause(), "hlcWallMs") == Int(OCCURRED_MS) && Get(Pause(), "hlcCounter") == Int(0);
  }

  /** Such a command exists. */
  lemma PauseWithoutTask(readers: Readers)
    requires readers.instant(OCCURRED) == Some(OCCURRED_MS)
    ensures ValidCommand("c", Pause(), readers) && Shaped(Commands, Pause())
    ensures !IsRetarget(Pause()) && "taskId" !in Pause()
  {
    PauseHasClock(readers);
  }
}
