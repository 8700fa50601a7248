/** The check of every pending row, before the core sees the queues and again after they are rewritten. */
module Preflight {
  import opened Prelude
  import opened Json
  import opened QueueModel
  import opened Reconciliation

  const DURATION_MIN_MS := 60_000
  const PREFERENCE_DURATION_MAX_MS := 10_800_000
  const CANONICAL_DURATION_MAX_MS := 14_400_000
  const COMMAND_TYPES := {"start", "pause", "resume", "finish", "cancel", "clear", "retarget"}
  const PHASES := {"focus", "short_break", "long_break"}

  /** A time stamp in milliseconds, and the identity a task title has; `None` where either is refused. */
  datatype Readers = Readers(instant: string -> Option<int>, taskOf: string -> Option<string>)

  // ----- Rows -----

  ghost predicate IsIdentity(j: Json) {
    j.Str? && j.s != ""
  }

  ghost predicate IsWithin(j: Json, low: int, high: int) {
    j.Int? && low <= j.n <= high
  }

  ghost predicate IsDuration(j: Json, maximum: int) {
    IsWithin(j, DURATION_MIN_MS, maximum) && j.n % 60_000 == 0
  }

  ghost predicate IsPhase(j: Json) {
    j.Str? && j.s in PHASES
  }

  ghost predicate IsTask(j: Json) {
    j.Null? || IsIdentity(j)
  }

  /** `_operation_clock`: near its occurrence, or the zero clock of a legacy preference. */
  ghost predicate HasClock(p: Payload, readers: Readers, legacy: bool) {
    var occurred, wall, counter := Get(p, "occurredAt"), Get(p, "hlcWallMs"), Get(p, "hlcCounter");
    && occurred.Str? && readers.instant(occurred.s).Some?
    && IsWithin(wall, 0, MAX_SAFE_INTEGER) && IsWithin(counter, 0, MAX_SAFE_INTEGER)
    && var ms := readers.instant(occurred.s).value;
       if wall.n == 0 then legacy && counter.n == 0 && ms == 0
       else 1 <= ms <= MAX_SAFE_INTEGER && -MAX_CLOCK_SKEW_MS <= wall.n - ms <= MAX_CLOCK_SKEW_MS
  }

  ghost predicate IsRetarget(p: Payload) {
    Get(p, "type") == Str("retarget")
  }

  ghost predicate ValidCommand(id: string, p: Payload, readers: Readers) {
    var kind, observed, task := Get(p, "type"), Get(p, "observedElapsedMs"), Get(p, "taskId");
    && IsWithin(Get(p, "deviceSequence"), 1, MAX_SAFE_INTEGER)
    && IsDuration(Get(p, "plannedDurationMs"), CANONICAL_DURATION_MAX_MS)
    && id != "" && Get(p, "id") == Str(id) && IsIdentity(Get(p, "timerId"))
    && kind.Str? && kind.s in COMMAND_TYPES && IsPhase(Get(p, "phase"))
    && IsWithin(observed, 0, Get(p, "plannedDurationMs").n)
    && IsTask(task)
    && (if IsRetarget(p) then "taskId" in p && Get(p, "phase") == Str("focus")
        else
          && (kind.s == "start" ==> observed.n == 0)
          && (task.Str? ==> kind.s == "start" && Get(p, "phase") == Str("focus")))
    && HasClock(p, readers, false)
  }

  ghost predicate ValidTaskOperation(id: string, p: Payload, readers: Readers) {
    var kind, title := Get(p, "type"), Get(p, "title");
    && id != "" && Get(p, "id") == Str(id) && IsIdentity(Get(p, "taskId"))
    && (kind == Str("upsert") || kind == Str("delete"))
    && (if kind == Str("upsert") then title.Str? && readers.taskOf(title.s) == Some(Get(p, "taskId").s)
        else "title" !in p)
    && HasClock(p, readers, false)
  }

  ghost predicate ValidDurationOperation(id: string, p: Payload, readers: Readers) {
    && IsDuration(Get(p, "durationMs"), PREFERENCE_DURATION_MAX_MS)
    && id != "" && Get(p, "id") == Str(id) && IsPhase(Get(p, "phase"))
    && HasClock(p, readers, true)
  }

  ghost predicate ValidAutoStartOperation(id: string, p: Payload, deviceId: string, readers: Readers) {
    && id != "" && Get(p, "id") == Str(id) && Get(p, "deviceId") == Str(deviceId) && Get(p, "enabled").Bool?
    && HasClock(p, readers, true)
  }

  ghost predicate ValidSelectedTaskOperation(id: string, p: Payload, deviceId: string, readers: Readers) {
    && id != "" && Get(p, "id") == Str(id) && Get(p, "deviceId") == Str(deviceId) && IsTask(Get(p, "taskId"))
    && HasClock(p, readers, true)
  }

  ghost predicate ValidRow(d: Domain, id: string, p: Payload, deviceId: string, readers: Readers) {
    match d
    case Commands => ValidCommand(id, p, readers)
    case TaskOperations => ValidTaskOperation(id, p, readers)
    case DurationOperations => ValidDurationOperation(id, p, readers)
    case AutoStartOperations => ValidAutoStartOperation(id, p, deviceId, readers)
    case SelectedTaskOperations => ValidSelectedTaskOperation(id, p, deviceId, readers)
  }

  // ----- The validators -----

  method CheckInteger(j: Json, low: int, high: int) returns (ok: bool)
    ensures ok <==> IsWithin(j, low, high)
  {
    if !j.Int? { return false; }
    ok := low <= j.n && j.n <= high;
  }

  method CheckDuration(j: Json, maximum: int) returns (ok: bool)
    ensures ok <==> IsDuration(j, maximum)
  {
    if !j.Int? || j.n < 60_000 || j.n > maximum { return false; }
    ok := j.n % 60_000 == 0;
  }

  method CheckIdentity(p: Payload, id: string) returns (ok: bool)
    ensures ok <==> id != "" && Get(p, "id") == Str(id)
  {
    var own := Get(p, "id");
    ok := own.Str? && own.s != "" && own.s == id;
  }

  method CheckTask(j: Json) returns (ok: bool)
    ensures ok <==> IsTask(j)
  {
    if !j.Str? { return j.Null?; }
    ok := j.s != "";
  }

  method CheckClock(p: Payload, readers: Readers, legacy: bool) returns (ok: bool)
    ensures ok <==> HasClock(p, readers, legacy)
  {
    var stamp := Get(p, "occurredAt");
    var occurred := if stamp.Str? then readers.instant(stamp.s) else None;
    if occurred.None? { return false; }
    var wall, counter := Get(p, "hlcWallMs"), Get(p, "hlcCounter");
    ok := CheckInteger(wall, 0, MAX_SAFE_INTEGER);
    if !ok { return; }
    ok := CheckInteger(counter, 0, MAX_SAFE_INTEGER);
    if !ok { return; }
    if wall.n == 0 && (!legacy || counter.n != 0) { return false; }
    if wall.n == 0 { return occurred.value == 0; }
    if occurred.value < 1 || occurred.value > MAX_SAFE_INTEGER { return false; }
    var skew := wall.n - occurred.value;
    ok := -300_000 <= skew && skew <= 300_000;
  }

  method CheckCommand(id: string, p: Payload, readers: Readers) returns (ok: bool)
    ensures ok <==> ValidCommand(id, p, readers)
  {
    var kind, task := Get(p, "type"), Get(p, "taskId");
    ok := CheckInteger(Get(p, "deviceSequence"), 1, MAX_SAFE_INTEGER);
    if !ok { return; }
    ok := CheckDuration(Get(p, "plannedDurationMs"), 14_400_000);
    if !ok { return; }
    ok := CheckIdentity(p, id);
    if !ok { return; }
    if !Get(p, "timerId").Str? || Get(p, "timerId").s == "" { return false; }
    ok := CheckInteger(Get(p, "observedElapsedMs"), 0, Get(p, "plannedDurationMs").n);
    if !ok { return; }
    ok := CheckTask(task);
    if !ok { return; }
    if kind == Str("retarget") {
      ok := CheckRetarget(p);
    } else {
      ok := CheckOtherCommand(p);
    }
    if !ok { return; }
    ok := CheckClock(p, readers, false);
  }

  /** Attribution must be explicit, null included. */
  method CheckRetarget(p: Payload) returns (ok: bool)
    ensures ok <==> "taskId" in p && Get(p, "phase") == Str("focus")
  {
    if Get(p, "phase") != Str("focus") { return false; }
    ok := "taskId" in p;
  }

  method CheckOtherCommand(p: Payload) returns (ok: bool)
    requires Get(p, "observedElapsedMs").Int? && !IsRetarget(p) && IsTask(Get(p, "taskId"))
    ensures ok <==>
              && Get(p, "type").Str? && Get(p, "type").s in COMMAND_TYPES && IsPhase(Get(p, "phase"))
              && (Get(p, "type").s == "start" ==> Get(p, "observedElapsedMs").n == 0)
              && (Get(p, "taskId").Str? ==> Get(p, "type").s == "start" && Get(p, "phase") == Str("focus"))
  {
    var kind, phase := Get(p, "type"), Get(p, "phase");
    if kind !in {Str("start"), Str("pause"), Str("resume"), Str("finish"), Str("cancel"), Str("clear")} {
      return false;
    }
    if phase !in {Str("focus"), Str("short_break"), Str("long_break")} { return false; }
    if kind == Str("start") && Get(p, "observedElapsedMs").n != 0 { return false; }
    ok := Get(p, "taskId").Null? || (kind == Str("start") && phase == Str("focus"));
  }

  method CheckTaskOperation(id: string, p: Payload, readers: Readers) returns (ok: bool)
    ensures ok <==> ValidTaskOperation(id, p, readers)
  {
    ok := CheckIdentity(p, id);
    if !ok { return; }
    var task, kind, title := Get(p, "taskId"), Get(p, "type"), Get(p, "title");
    if !task.Str? || task.s == "" { return false; }
    if kind == Str("upsert") {
      var read := if title.Str? then readers.taskOf(title.s) else None;
      if read != Some(task.s) { return false; }
    } else if kind != Str("delete") || "title" in p {
      return false;
    }
    ok := CheckClock(p, readers, false);
  }

  method CheckDurationOperation(id: string, p: Payload, readers: Readers) returns (ok: bool)
    ensures ok <==> ValidDurationOperation(id, p, readers)
  {
    ok := CheckDuration(Get(p, "durationMs"), 10_800_000);
    if !ok { return; }
    ok := CheckIdentity(p, id);
    if !ok { return; }
    if Get(p, "phase") !in {Str("focus"), Str("short_break"), Str("long_break")} { return false; }
    ok := CheckClock(p, readers, true);
  }

  method CheckAutoStartOperation(id: string, p: Payload, deviceId: string, readers: Readers) returns (ok: bool)
    ensures ok <==> ValidAutoStartOperation(id, p, deviceId, readers)
  {
    ok := CheckIdentity(p, id);
    if !ok { return; }
    if Get(p, "deviceId") != Str(deviceId) || !Get(p, "enabled").Bool? { return false; }
    ok := CheckClock(p, readers, true);
  }

  method CheckSelectedTaskOperation(id: string, p: Payload, deviceId: string, readers: Readers) returns (ok: bool)
    ensures ok <==> ValidSelectedTaskOperation(id, p, deviceId, readers)
  {
    ok := CheckIdentity(p, id);
    if !ok { return; }
    if Get(p, "deviceId") != Str(deviceId) { return false; }
    ok := CheckTask(Get(p, "taskId"));
    if !ok { return; }
    ok := CheckClock(p, readers, true);
  }

  method CheckRow(d: Domain, id: string, p: Payload, deviceId: string, readers: Readers) returns (ok: bool)
    ensures ok <==> ValidRow(d, id, p, deviceId, readers)
  {
    match d {
      case Commands => ok := CheckCommand(id, p, readers);
      case TaskOperations => ok := CheckTaskOperation(id, p, readers);
      case DurationOperations => ok := CheckDurationOperation(id, p, readers);
      case AutoStartOperations => ok := CheckAutoStartOperation(id, p, deviceId, readers);
      case SelectedTaskOperations => ok := CheckSelectedTaskOperation(id, p, deviceId, readers);
    }
  }

  ghost predicate QueuePasses(d: Domain, q: Queue, deviceId: string, readers: Readers) {
    forall id <- q :: ValidRow(d, id, q[id], deviceId, readers)
  }

  ghost predicate QueuesPass(queues: Queues, deviceId: string, readers: Readers) {
    forall d: Domain {:trigger QueuePasses(d, queues.At(d), deviceId, readers)} ::
      QueuePasses(d, queues.At(d), deviceId, readers)
  }

  method CheckQueue(d: Domain, q: Queue, deviceId: string, readers: Readers) returns (ok: bool)
    ensures ok <==> QueuePasses(d, q, deviceId, readers)
  {
    var rest := q.Keys;
    while rest != {}
      invariant rest <= q.Keys
      invariant forall id <- q.Keys - rest :: ValidRow(d, id, q[id], deviceId, readers)
      decreases rest
    {
      var id :| id in rest;
      ok := CheckRow(d, id, q[id], deviceId, readers);
      if !ok { return; }
      rest := rest - {id};
    }
    ok := true;
  }

  method CheckQueues(queues: Queues, deviceId: string, readers: Readers) returns (ok: bool)
    ensures ok <==> QueuesPass(queues, deviceId, readers)
  {
    for i := 0 to |DOMAINS|
      invariant forall k | 0 <= k < i :: QueuePasses(DOMAINS[k], queues.At(DOMAINS[k]), deviceId, readers)
    {
      ok := CheckQueue(DOMAINS[i], queues.At(DOMAINS[i]), deviceId, readers);
      if !ok { return; }
    }
    ok := true;
    forall d: Domain ensures QueuePasses(d, queues.At(d), deviceId, readers) { EveryDomain(d); }
  }

  // ----- What the check makes of the loose comparison -----

  /** The payloads are the same object, adjustable members aside. */
  ghost predicate IdenticalPayload(d: Domain, original: Payload, operation: Payload) {
    forall key | key !in Adjustable(d) ::
      (key in original <==> key in operation) && (key in original ==> original[key] == operation[key])
  }

  /** A command other than a retarget that had no task is given a null one, or has a null one taken away. */
  ghost predicate TogglesNullTask(d: Domain, original: Payload, operation: Payload) {
    d == Commands && !IsRetarget(original) && ("taskId" in original) != ("taskId" in operation)
  }

  /** The member reads the same in both rows, and if it is null it is missing in neither or in both. */
  ghost predicate Settled(original: Payload, operation: Payload, key: string) {
    && Get(original, key) == Get(operation, key)
    && (Get(original, key).Null? ==> key !in original && key !in operation)
  }

  lemma Settles(d: Domain, original: Payload, operation: Payload, key: string)
    requires Alike(d, original, operation) && key !in Adjustable(d)
    ensures Get(original, key).Str? && Get(operation, key).Str? ==> Settled(original, operation, key)
    ensures Get(original, key).Int? && Get(operation, key).Int? ==> Settled(original, operation, key)
    ensures Get(original, key).Bool? && Get(operation, key).Bool? ==> Settled(original, operation, key)
  {
    assert Equal(Get(original, key), Get(operation, key));
  }

  const CLOCK_MEMBERS := {"occurredAt", "hlcWallMs", "hlcCounter"}

  lemma ClockSettles(d: Domain, id: string, original: Payload, operation: Payload, deviceId: string, readers: Readers,
                     key: string)
    requires Alike(d, original, operation) && key in CLOCK_MEMBERS
    requires ValidRow(d, id, original, deviceId, readers) && ValidRow(d, id, operation, deviceId, readers)
    ensures Settled(original, operation, key)
  {
    var legacy := d !in {Commands, TaskOperations};
    assert HasClock(original, readers, legacy) && HasClock(operation, readers, legacy);
    assert key !in Adjustable(d);
    Settles(d, original, operation, key);
  }

  lemma CommandSettles(id: string, original: Payload, operation: Payload, readers: Readers, key: string)
    requires Alike(Commands, original, operation)
    requires ValidCommand(id, original, readers) && ValidCommand(id, operation, readers)
    requires key in {"id", "deviceSequence", "timerId", "type"}
    ensures Settled(original, operation, key)
  {
    assert key !in Adjustable(Commands);
    Settles(Commands, original, operation, key);
  }

  lemma CommandTaskSettles(id: string, original: Payload, operation: Payload, readers: Readers)
    requires Alike(Commands, original, operation)
    requires ValidCommand(id, original, readers) && ValidCommand(id, operation, readers)
    ensures Get(original, "taskId") == Get(operation, "taskId")
    ensures IsRetarget(original) ==> "taskId" in original && "taskId" in operation
  {
    CommandSettles(id, original, operation, readers, "type");
    assert "taskId" !in Adjustable(Commands);
    assert Equal(Get(original, "taskId"), Get(operation, "taskId"));
  }

  lemma TaskOperationSettles(id: string, original: Payload, operation: Payload, readers: Readers, key: string)
    requires Alike(TaskOperations, original, operation)
    requires ValidTaskOperation(id, original, readers) && ValidTaskOperation(id, operation, readers)
    requires key in {"id", "taskId", "type", "title"}
    ensures Settled(original, operation, key)
  {
    Settles(TaskOperations, original, operation, "type");
    Settles(TaskOperations, original, operation, key);
  }

  lemma SelectedTaskSettles(id: string, original: Payload, operation: Payload, deviceId: string, readers: Readers)
    requires Alike(SelectedTaskOperations, original, operation)
    requires ValidSelectedTaskOperation(id, original, deviceId, readers)
    requires ValidSelectedTaskOperation(id, operation, deviceId, readers)
    ensures Get(original, "taskId") == Get(operation, "taskId")
  {
    assert Equal(Get(original, "taskId"), Get(operation, "taskId"));
  }

  /** The member may be null in a row that passes. */
  ghost predicate MayBeNull(d: Domain, key: string) {
    d in {Commands, SelectedTaskOperations} && key == "taskId"
  }

  lemma SelectionSettles(id: string, original: Payload, operation: Payload, deviceId: string, readers: Readers,
                         key: string)
    requires Alike(SelectedTaskOperations, original, operation) && key in {"id", "deviceId"}
    requires ValidSelectedTaskOperation(id, original, deviceId, readers)
    requires ValidSelectedTaskOperation(id, operation, deviceId, readers)
    ensures Settled(original, operation, key)
  {
    Settles(SelectedTaskOperations, original, operation, key);
  }

  lemma DurationSettles(id: string, original: Payload, operation: Payload, readers: Readers, key: string)
    requires Alike(DurationOperations, original, operation) && key in {"id", "phase", "durationMs"}
    requires ValidDurationOperation(id, original, readers) && ValidDurationOperation(id, operation, readers)
    ensures Settled(original, operation, key)
  {
    Settles(DurationOperations, original, operation, key);
  }

  lemma AutoStartSettles(id: string, original: Payload, operation: Payload, deviceId: string, readers: Readers,
                         key: string)
    requires Alike(AutoStartOperations, original, operation) && key in {"id", "deviceId", "enabled"}
    requires ValidAutoStartOperation(id, original, deviceId, readers)
    requires ValidAutoStartOperation(id, operation, deviceId, readers)
    ensures Settled(original, operation, key)
  {
    Settles(AutoStartOperations, original, operation, key);
  }

  /** What a row holds beside its clock and what may be adjusted. */
  function OwnMembers(d: Domain): set<string> {
    match d
    case Commands => {"id", "deviceSequence", "timerId", "type", "taskId"}
    case TaskOperations => {"id", "taskId", "type", "title"}
    case DurationOperations => {"id", "phase", "durationMs"}
    case AutoStartOperations => {"id", "deviceId", "enabled"}
    case SelectedTaskOperations => {"id", "deviceId", "taskId"}
  }

  lemma StoredAreOwn(d: Domain, key: string)
    requires key in StoredFields(d) && key !in Adjustable(d) && key !in CLOCK_MEMBERS
    ensures key in OwnMembers(d)
  {
  }

  lemma OwnMemberSettles(d: Domain, id: string, original: Payload, operation: Payload, deviceId: string,
                         readers: Readers, key: string)
    requires Alike(d, original, operation) && key in OwnMembers(d)
    requires ValidRow(d, id, original, deviceId, readers) && ValidRow(d, id, operation, deviceId, readers)
    ensures Get(original, key) == Get(operation, key)
    ensures !MayBeNull(d, key) ==> Settled(original, operation, key)
  {
    match d
    case Commands =>
      if key == "taskId" { CommandTaskSettles(id, original, operation, readers); }
      else { CommandSettles(id, original, operation, readers, key); }
    case TaskOperations => TaskOperationSettles(id, original, operation, readers, key);
    case DurationOperations => DurationSettles(id, original, operation, readers, key);
    case AutoStartOperations => AutoStartSettles(id, original, operation, deviceId, readers, key);
    case SelectedTaskOperations =>
      if key == "taskId" { SelectedTaskSettles(id, original, operation, deviceId, readers); }
      else { SelectionSettles(id, original, operation, deviceId, readers, key); }
  }

  lemma MembersSettle(d: Domain, id: string, original: Payload, operation: Payload, deviceId: string, readers: Readers)
    requires Alike(d, original, operation) && Shaped(d, original) && Shaped(d, operation)
    requires ValidRow(d, id, original, deviceId, readers) && ValidRow(d, id, operation, deviceId, readers)
    ensures SamePayload(d, original, operation)
    ensures forall key | key !in Adjustable(d) && !MayBeNull(d, key) :: Settled(original, operation, key)
  {
    forall key | key !in Adjustable(d)
      ensures Get(original, key) == Get(operation, key)
      ensures !MayBeNull(d, key) ==> Settled(original, operation, key)
    {
      if key in CLOCK_MEMBERS {
        ClockSettles(d, id, original, operation, deviceId, readers, key);
      } else if key in StoredFields(d) {
        StoredAreOwn(d, key);
        OwnMemberSettles(d, id, original, operation, deviceId, readers, key);
      }
    }
  }

  lemma IdenticalExactlyByTask(d: Domain, original: Payload, operation: Payload)
    requires SamePayload(d, original, operation)
    requires forall key | key !in Adjustable(d) && !MayBeNull(d, key) :: Settled(original, operation, key)
    ensures IdenticalPayload(d, original, operation) <==>
              (MayBeNull(d, "taskId") ==> ("taskId" in original <==> "taskId" in operation))
  {
    assert "taskId" !in Adjustable(d);
    if MayBeNull(d, "taskId") ==> ("taskId" in original <==> "taskId" in operation) {
      forall key | key !in Adjustable(d)
        ensures (key in original <==> key in operation) && (key in original ==> original[key] == operation[key])
      {
        assert Get(original, key) == Get(operation, key);
        if !MayBeNull(d, key) { assert Settled(original, operation, key); }
      }
    }
  }

  /**
   * Of two rows that pass, what compares alike is the same but for the adjustable members, and the
   * identical object exactly unless a null task was given or taken.
   */
  lemma AlikeRowsAreTheSame(d: Domain, id: string, original: Payload, operation: Payload, deviceId: string,
                            readers: Readers)
    requires Alike(d, original, operation) && Shaped(d, original) && Shaped(d, operation)
    requires ValidRow(d, id, original, deviceId, readers) && ValidRow(d, id, operation, deviceId, readers)
    ensures SamePayload(d, original, operation)
    ensures IdenticalPayload(d, original, operation) <==> !TogglesNullTask(d, original, operation)
  {
    MembersSettle(d, id, original, operation, deviceId, readers);
    IdenticalExactlyByTask(d, original, operation);
    if d == Commands { CommandTaskSettles(id, original, operation, readers); }
  }

  /** The core sends rows with their device. */
  function AsSent(p: Payload, deviceId: string): Json {
    Obj(p["deviceId" := Str(deviceId)])
  }

  lemma StoredCommandIsAcceptable(id: string, p: Payload, deviceId: string, readers: Readers)
    requires ValidCommand(id, p, readers) && Shaped(Commands, p)
    ensures NormalizedOperation(Commands, AsSent(p, deviceId), deviceId) == Some(p)
  {
    var given := AsSent(p, deviceId).members;
    CommandIsComplete(id, p, readers);
    assert given.Keys <= AllowedFields(Commands);
    assert Get(given, "deviceId") == Str(deviceId);
    assert given - {"deviceId"} == p by { assert "deviceId" !in StoredFields(Commands); }
  }

  lemma CommandIsComplete(id: string, p: Payload, readers: Readers)
    requires ValidCommand(id, p, readers)
    ensures RequiredFields(Commands) - {"deviceId"} <= p.Keys
  {
    assert {"id", "occurredAt", "hlcWallMs", "hlcCounter", "deviceSequence", "timerId", "type", "phase",
            "plannedDurationMs", "observedElapsedMs"} <= p.Keys;
  }

  lemma NullTaskReadsAlike(p: Payload)
    requires "taskId" !in p
    ensures var q := p["taskId" := Null]; Alike(Commands, p, q) && Alike(Commands, q, p) && !Equal(Obj(p), Obj(q))
  {
    var q := p["taskId" := Null];
    forall key ensures Equal(Get(p, key), Get(q, key)) && Equal(Get(q, key), Get(p, key)) {
      assert Get(q, key) == Get(p, key);
      EqualIsReflexive(Get(p, key));
    }
    assert "taskId" in q.Keys && "taskId" !in p.Keys;
  }

  lemma NullTaskIsValid(id: string, p: Payload, readers: Readers)
    requires ValidCommand(id, p, readers) && Shaped(Commands, p) && !IsRetarget(p) && "taskId" !in p
    ensures var q := p["taskId" := Null]; ValidCommand(id, q, readers) && Shaped(Commands, q)
  {
    var q := p["taskId" := Null];
    assert forall key | key != "taskId" :: Get(q, key) == Get(p, key);
    assert HasClock(q, readers, false) <==> HasClock(p, readers, false);
    assert q.Keys == p.Keys + {"taskId"};
  }

  /**
   * Exactly the rows that may change: any command but a retarget that has no task may come back
   * with a null one, or the other way round, and every check lets it through.
   */
  lemma NullTaskMayComeAndGo(id: string, p: Payload, deviceId: string, readers: Readers)
    requires ValidCommand(id, p, readers) && Shaped(Commands, p) && !IsRetarget(p) && "taskId" !in p
    ensures var q := p["taskId" := Null];
            && ValidCommand(id, q, readers) && Shaped(Commands, q)
            && NormalizedOperation(Commands, AsSent(p, deviceId), deviceId) == Some(p)
            && NormalizedOperation(Commands, AsSent(q, deviceId), deviceId) == Some(q)
            && Alike(Commands, p, q) && Alike(Commands, q, p) && !Equal(Obj(p), Obj(q))
            && TogglesNullTask(Commands, p, q) && TogglesNullTask(Commands, q, p)
  {
    var q := p["taskId" := Null];
    NullTaskReadsAlike(p);
    NullTaskIsValid(id, p, readers);
    StoredCommandIsAcceptable(id, p, deviceId, readers);
    StoredCommandIsAcceptable(id, q, deviceId, readers);
    assert !IsRetarget(q);
  }

  /** A retarget keeps its task, null or not. */
  lemma RetargetKeepsItsTask(id: string, p: Payload, readers: Readers)
    requires IsRetarget(p)
    ensures !ValidCommand(id, p - {"taskId"}, readers)
  {
  }
}
