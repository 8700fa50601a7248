/** The five offline queues, their never-sent proof and their clocks. */
module QueueModel {
  import opened Prelude
  import opened Json

  const MAX_CLOCK_SKEW_MS := 300_000

  datatype Domain = Commands | TaskOperations | DurationOperations | AutoStartOperations | SelectedTaskOperations

  const DOMAINS: seq<Domain> :=
    [Commands, TaskOperations, DurationOperations, AutoStartOperations, SelectedTaskOperations]

  lemma EveryDomain(d: Domain)
    ensures d in DOMAINS
  {
  }

  /** A queued operation, as its JSON object. */
  type Payload = map<string, Json>

  /** `dict.get`: a missing member and a null one read alike. */
  function Get(p: Payload, key: string): Json {
    if key in p then p[key] else Null
  }

  datatype Clock = Clock(wall: nat, counter: nat)

  predicate Later(a: Clock, b: Clock) {
    a.wall > b.wall || (a.wall == b.wall && a.counter > b.counter)
  }

  /** Of two different clocks exactly one is the later. */
  lemma LaterIsStrict(a: Clock, b: Clock, c: Clock)
    ensures Later(a, b) || a == b || Later(b, a)
    ensures !Later(a, a) && !(Later(a, b) && Later(b, a))
    ensures Later(a, b) && Later(b, c) ==> Later(a, c)
    ensures Later(a, b) ==> a.wall >= b.wall
  {
  }

  predicate AtLeast(a: Clock, b: Clock) {
    a == b || Later(a, b)
  }

  function MaxClock(a: Clock, b: Clock): (c: Clock)
    ensures AtLeast(c, a) && AtLeast(c, b) && c in {a, b}
  {
    if Later(b, a) then b else a
  }

  function Natural(j: Json): (n: nat)
    ensures j.Int? && j.n >= 0 ==> n == j.n
    ensures !j.Int? || j.n < 0 ==> n == 0
  {
    if j.Int? && j.n >= 0 then j.n else 0
  }

  function ClockOf(p: Payload): Clock {
    Clock(Natural(Get(p, "hlcWallMs")), Natural(Get(p, "hlcCounter")))
  }

  function SequenceOf(p: Payload): nat {
    Natural(Get(p, "deviceSequence"))
  }

  type Queue = map<string, Payload>

  datatype Queues = Queues(commands: Queue, tasks: Queue, durations: Queue, autoStarts: Queue, selectedTasks: Queue) {
    function At(d: Domain): Queue {
      match d
      case Commands => commands
      case TaskOperations => tasks
      case DurationOperations => durations
      case AutoStartOperations => autoStarts
      case SelectedTaskOperations => selectedTasks
    }

    function With(d: Domain, q: Queue): (r: Queues)
      ensures r.At(d) == q && forall e: Domain | e != d :: r.At(e) == At(e)
    {
      match d
      case Commands => this.(commands := q)
      case TaskOperations => this.(tasks := q)
      case DurationOperations => this.(durations := q)
      case AutoStartOperations => this.(autoStarts := q)
      case SelectedTaskOperations => this.(selectedTasks := q)
    }
  }

  /** Every row's payload carries the row's own identifier. */
  ghost predicate Keyed(q: Queue) {
    forall id <- q :: Get(q[id], "id") == Str(id)
  }

  /** What a retained generated break may have adjusted. */
  function Adjustable(d: Domain): set<string> {
    if d == Commands then {"phase", "plannedDurationMs", "observedElapsedMs"} else {}
  }

  ghost predicate SamePayload(d: Domain, original: Payload, operation: Payload) {
    forall key | key !in Adjustable(d) :: Get(original, key) == Get(operation, key)
  }

  // ----- The members of a row -----

  const CLOCK_FIELDS := {"id", "deviceId", "occurredAt", "hlcWallMs", "hlcCounter"}

  function RequiredFields(d: Domain): set<string> {
    CLOCK_FIELDS + (match d
                    case Commands =>
                      {"deviceSequence", "timerId", "type", "phase", "plannedDurationMs", "observedElapsedMs"}
                    case TaskOperations => {"taskId", "type", "title"}
                    case DurationOperations => {"phase", "durationMs"}
                    case AutoStartOperations => {"enabled"}
                    case SelectedTaskOperations => {"taskId"})
  }

  function AllowedFields(d: Domain): set<string> {
    RequiredFields(d) + if d == Commands then {"taskId"} else {}
  }

  /** What a row stores of them: three of the domains leave the device out. */
  function StoredFields(d: Domain): set<string> {
    AllowedFields(d) - if d in {Commands, TaskOperations, DurationOperations} then {"deviceId"} else {}
  }

  /** A row as this client writes it: no foreign members, and a selection always names its task. */
  ghost predicate Shaped(d: Domain, p: Payload) {
    p.Keys <= StoredFields(d) && (d == SelectedTaskOperations ==> "taskId" in p)
  }

  ghost predicate ShapedRows(d: Domain, q: Queue) {
    forall id <- q :: Shaped(d, q[id])
  }

  /**
   * The tables one transaction reads and writes. `parents` is `depends_on_command_id`; `proof`
   * holds, by domain, the identifiers that were never sent.
   */
  datatype Tables = Tables(
    queues: Queues,
    parents: map<string, string>,
    proof: map<Domain, set<string>>,
    hlc: Clock,
    deviceSequence: nat,
    head: Option<Clock>,
    revision: nat)

  function ProofAt(t: Tables, d: Domain): set<string> {
    if d in t.proof then t.proof[d] else {}
  }

  /** The duration table's `phase` column is unique. */
  ghost predicate OnePerPhase(q: Queue) {
    forall a: string, b: string {:trigger SharePhase(q, a, b)} :: !SharePhase(q, a, b)
  }

  ghost predicate SharePhase(q: Queue, a: string, b: string) {
    a in q && b in q && a != b && Get(q[a], "phase") == Get(q[b], "phase")
  }

  ghost predicate ShareSequence(q: Queue, a: string, b: string) {
    a in q && b in q && a != b && SequenceOf(q[a]) == SequenceOf(q[b])
  }

  ghost predicate DomainFormed(t: Tables, d: Domain) {
    Keyed(t.queues.At(d)) && ShapedRows(d, t.queues.At(d)) && ProofAt(t, d) <= t.queues.At(d).Keys
  }

  ghost predicate WellFormed(t: Tables) {
    && (forall d: Domain :: DomainFormed(t, d))
    && OnePerPhase(t.queues.durations)
    && (forall id <- t.parents :: id in t.queues.commands && t.parents[id] in t.queues.commands)
  }

  ghost predicate RowsCovered(queue: Queue, clock: Clock) {
    forall id <- queue :: AtLeast(clock, ClockOf(queue[id]))
  }

  /** The persisted clock is at or above every queued clock and the canonical head. */
  ghost predicate ClocksCovered(t: Tables) {
    && (forall d: Domain {:trigger RowsCovered(t.queues.At(d), t.hlc)} :: RowsCovered(t.queues.At(d), t.hlc))
    && (t.head.Some? ==> AtLeast(t.hlc, t.head.value))
  }

  /** No two commands share a device sequence, and none is ahead of the persisted one. */
  ghost predicate SequencesCovered(t: Tables) {
    && (forall id <- t.queues.commands :: SequenceOf(t.queues.commands[id]) <= t.deviceSequence)
    && (forall a: string, b: string {:trigger ShareSequence(t.queues.commands, a, b)} ::
          !ShareSequence(t.queues.commands, a, b))
  }

  lemma SamePayloadKeepsClocks(d: Domain, original: Payload, operation: Payload)
    requires SamePayload(d, original, operation)
    ensures ClockOf(operation) == ClockOf(original) && SequenceOf(operation) == SequenceOf(original)
    ensures Get(operation, "id") == Get(original, "id")
  {
  }

  /**
   * What happened so far: sequences handed out, rows queued since the last install, rows whose
   * payload was sent.
   */
  datatype History = History(issued: seq<nat>, recent: set<(Domain, string)>, sent: set<(Domain, string)>)

  ghost predicate Ascending(issued: seq<nat>) {
    forall i, j | 0 <= i < j < |issued| :: issued[i] < issued[j]
  }

  /** A row queued since the last install is later than the head, and provably unsent until sent. */
  ghost predicate IsRecent(t: Tables, h: History, d: Domain, id: string)
    requires id in t.queues.At(d)
  {
    && (t.head.Some? ==> Later(ClockOf(t.queues.At(d)[id]), t.head.value))
    && ((d, id) !in h.sent ==> id in ProofAt(t, d))
  }

  ghost predicate RecentRows(t: Tables, h: History) {
    forall d: Domain, id: string | (d, id) in h.recent && id in t.queues.At(d) :: IsRecent(t, h, d, id)
  }

  /** No sequence was handed out twice, and none is ahead of the persisted one. */
  ghost predicate SequencesIssued(t: Tables, h: History) {
    Ascending(h.issued) && forall s <- h.issued :: s <= t.deviceSequence
  }

  ghost predicate Consistent(t: Tables, h: History) {
    && WellFormed(t) && ClocksCovered(t) && SequencesCovered(t)
    && SequencesIssued(t, h) && RecentRows(t, h)
  }

  function Persisted(t: Tables, d: Domain, id: string, operation: Payload, replaced: set<string>): Tables {
    t.(queues := t.queues.With(d, (t.queues.At(d) - replaced)[id := operation]),
       proof := t.proof[d := ProofAt(t, d) - replaced + {id}],
       hlc := ClockOf(operation),
       deviceSequence := if d == Commands then SequenceOf(operation) else t.deviceSequence)
  }

  function Recorded(h: History, d: Domain, id: string, operation: Payload): (r: History)
    ensures (d, id) in r.recent && (d, id) !in r.sent
    ensures forall row | row != (d, id) :: (row in r.recent <==> row in h.recent) && (row in r.sent <==> row in h.sent)
  {
    History(if d == Commands then h.issued + [SequenceOf(operation)] else h.issued,
            h.recent + {(d, id)}, h.sent - {(d, id)})
  }

  function SamePhase(d: Domain, queue: Queue, phase: Json): set<string> {
    if d == DurationOperations then set id <- queue | Get(queue[id], "phase") == phase else {}
  }

  /** A row that queueing may persist: free identifier, later clock, next sequence. */
  ghost predicate Persistable(t: Tables, d: Domain, id: string, operation: Payload) {
    && id !in t.queues.At(d) && Get(operation, "id") == Str(id) && Shaped(d, operation)
    && Later(ClockOf(operation), t.hlc)
    && (d == Commands ==> SequenceOf(operation) > t.deviceSequence)
  }

  lemma PersistedRows(t: Tables, d: Domain, id: string, operation: Payload, replaced: set<string>)
    requires Persistable(t, d, id, operation)
    ensures var after := Persisted(t, d, id, operation, replaced);
            forall e: Domain, x: string | x in after.queues.At(e) && !(e == d && x == id) ::
              x in t.queues.At(e) && after.queues.At(e)[x] == t.queues.At(e)[x]
              && (x in ProofAt(t, e) ==> x in ProofAt(after, e))
  {
  }

  /** Queueing touches one row, its proof, clock and sequence, and of durations the row it takes the place of. */
  lemma WhatQueueingChanges(t: Tables, d: Domain, id: string, operation: Payload)
    ensures var after := Persisted(t, d, id, operation, SamePhase(d, t.queues.At(d), Get(operation, "phase")));
            && (forall e: Domain | e != d :: after.queues.At(e) == t.queues.At(e) && ProofAt(after, e) == ProofAt(t, e))
            && id in after.queues.At(d) && after.queues.At(d)[id] == operation && id in ProofAt(after, d)
            && (forall x | x != id && x in t.queues.At(d) ::
                  var gone := d == DurationOperations && Get(t.queues.At(d)[x], "phase") == Get(operation, "phase");
                  && (x in after.queues.At(d) <==> !gone)
                  && (!gone ==>
                        && after.queues.At(d)[x] == t.queues.At(d)[x]
                        && (x in ProofAt(after, d) <==> x in ProofAt(t, d))))
            && (forall x | x != id && x !in t.queues.At(d) :: x !in after.queues.At(d))
            && after.hlc == ClockOf(operation) && after.parents == t.parents
            && after.deviceSequence == (if d == Commands then SequenceOf(operation) else t.deviceSequence)
            && after.head == t.head && after.revision == t.revision
  {
  }

  lemma ReplacedStaysOnePerPhase(q: Queue, id: string, operation: Payload)
    requires OnePerPhase(q)
    ensures OnePerPhase((q - SamePhase(DurationOperations, q, Get(operation, "phase")))[id := operation])
  {
    var rows := (q - SamePhase(DurationOperations, q, Get(operation, "phase")))[id := operation];
    forall a: string, b: string ensures !SharePhase(rows, a, b) {
      assert !SharePhase(q, a, b);
    }
  }

  lemma PersistedDomain(t: Tables, d: Domain, id: string, operation: Payload, replaced: set<string>, e: Domain)
    requires DomainFormed(t, e) && Persistable(t, d, id, operation)
    ensures DomainFormed(Persisted(t, d, id, operation, replaced), e)
  {
    var after := Persisted(t, d, id, operation, replaced);
    if e == d {
      assert after.queues.At(d) == (t.queues.At(d) - replaced)[id := operation];
      assert ProofAt(after, d) == ProofAt(t, d) - replaced + {id};
    } else {
      assert after.queues.At(e) == t.queues.At(e) && ProofAt(after, e) == ProofAt(t, e);
    }
  }

  lemma PersistedStaysWellFormed(t: Tables, d: Domain, id: string, operation: Payload)
    requires WellFormed(t) && Persistable(t, d, id, operation)
    ensures WellFormed(Persisted(t, d, id, operation, SamePhase(d, t.queues.At(d), Get(operation, "phase"))))
  {
    var replaced := SamePhase(d, t.queues.At(d), Get(operation, "phase"));
    var after := Persisted(t, d, id, operation, replaced);
    forall e: Domain ensures DomainFormed(after, e) {
      assert DomainFormed(t, e);
      PersistedDomain(t, d, id, operation, replaced, e);
    }
    PersistedDurations(t, d, id, operation);
    PersistedParents(t, d, id, operation);
  }

  lemma PersistedDurations(t: Tables, d: Domain, id: string, operation: Payload)
    requires OnePerPhase(t.queues.durations)
    ensures var replaced := SamePhase(d, t.queues.At(d), Get(operation, "phase"));
            OnePerPhase(Persisted(t, d, id, operation, replaced).queues.durations)
  {
    if d == DurationOperations { ReplacedStaysOnePerPhase(t.queues.durations, id, operation); }
  }

  lemma PersistedParents(t: Tables, d: Domain, id: string, operation: Payload)
    requires forall x <- t.parents :: x in t.queues.commands && t.parents[x] in t.queues.commands
    ensures var after := Persisted(t, d, id, operation, SamePhase(d, t.queues.At(d), Get(operation, "phase")));
            forall x <- after.parents :: x in after.queues.commands && after.parents[x] in after.queues.commands
  {
    var after := Persisted(t, d, id, operation, SamePhase(d, t.queues.At(d), Get(operation, "phase")));
    assert after.queues.commands.Keys >= t.queues.commands.Keys;
  }

  lemma PersistedRowsCovered(t: Tables, d: Domain, id: string, operation: Payload, replaced: set<string>, e: Domain)
    requires RowsCovered(t.queues.At(e), t.hlc) && Persistable(t, d, id, operation)
    ensures RowsCovered(Persisted(t, d, id, operation, replaced).queues.At(e), ClockOf(operation))
  {
    var rows := Persisted(t, d, id, operation, replaced).queues.At(e);
    assert rows == if e == d then (t.queues.At(d) - replaced)[id := operation] else t.queues.At(e);
  }

  lemma PersistedStaysCovered(t: Tables, d: Domain, id: string, operation: Payload, replaced: set<string>)
    requires ClocksCovered(t) && Persistable(t, d, id, operation)
    ensures ClocksCovered(Persisted(t, d, id, operation, replaced))
  {
    var after := Persisted(t, d, id, operation, replaced);
    forall e: Domain ensures RowsCovered(after.queues.At(e), after.hlc) {
      assert RowsCovered(t.queues.At(e), t.hlc);
      PersistedRowsCovered(t, d, id, operation, replaced, e);
    }
  }

  lemma PersistedStaysSequenced(t: Tables, d: Domain, id: string, operation: Payload, replaced: set<string>)
    requires SequencesCovered(t) && Persistable(t, d, id, operation)
    ensures SequencesCovered(Persisted(t, d, id, operation, replaced))
  {
    var before, rows := t.queues.commands, Persisted(t, d, id, operation, replaced).queues.commands;
    assert before == t.queues.At(Commands);
    assert rows == if d == Commands then (before - replaced)[id := operation] else before;
    forall a: string, b: string ensures !ShareSequence(rows, a, b) {
      assert !ShareSequence(before, a, b);
    }
  }

  lemma PersistedStaysIssued(t: Tables, h: History, d: Domain, id: string, operation: Payload, replaced: set<string>)
    requires Persistable(t, d, id, operation) && SequencesIssued(t, h)
    ensures SequencesIssued(Persisted(t, d, id, operation, replaced), Recorded(h, d, id, operation))
  {
    forall i | 0 <= i < |h.issued| ensures h.issued[i] <= t.deviceSequence { assert h.issued[i] in h.issued; }
  }

  lemma PersistedStaysRecent(t: Tables, h: History, d: Domain, id: string, operation: Payload, replaced: set<string>)
    requires ClocksCovered(t) && Persistable(t, d, id, operation) && RecentRows(t, h)
    ensures RecentRows(Persisted(t, d, id, operation, replaced), Recorded(h, d, id, operation))
  {
    var after, later := Persisted(t, d, id, operation, replaced), Recorded(h, d, id, operation);
    PersistedRows(t, d, id, operation, replaced);
    forall e: Domain, x: string | (e, x) in later.recent && x in after.queues.At(e)
      ensures IsRecent(after, later, e, x)
    {
      if !(e == d && x == id) { assert IsRecent(t, h, e, x); }
    }
  }

  /** Queueing keeps every table invariant. */
  lemma PersistedStaysConsistent(t: Tables, h: History, d: Domain, id: string, operation: Payload)
    requires Consistent(t, h) && Persistable(t, d, id, operation)
    ensures var replaced := SamePhase(d, t.queues.At(d), Get(operation, "phase"));
            Consistent(Persisted(t, d, id, operation, replaced), Recorded(h, d, id, operation))
  {
    var replaced := SamePhase(d, t.queues.At(d), Get(operation, "phase"));
    PersistedStaysWellFormed(t, d, id, operation);
    PersistedStaysCovered(t, d, id, operation, replaced);
    PersistedStaysSequenced(t, d, id, operation, replaced);
    PersistedStaysIssued(t, h, d, id, operation, replaced);
    PersistedStaysRecent(t, h, d, id, operation, replaced);
  }

  lemma ParentStaysConsistent(t: Tables, h: History, id: string, parent: string)
    requires Consistent(t, h) && id in t.queues.commands && parent in t.queues.commands
    ensures Consistent(t.(parents := t.parents[id := parent]), h)
  {
    var after := t.(parents := t.parents[id := parent]);
    forall d: Domain ensures DomainFormed(after, d) { assert DomainFormed(t, d); }
    forall e: Domain, x: string | (e, x) in h.recent && x in after.queues.At(e) ensures IsRecent(after, h, e, x) {
      assert IsRecent(t, h, e, x);
    }
  }
}
