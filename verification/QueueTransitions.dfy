/** What claiming, queueing and installing do to the tables, and that every invariant survives. */
module QueueTransitions {
  import opened Prelude
  import opened Json
  import opened QueueModel
  import opened Reconciliation
  import opened Preflight
  import opened CoreOutput

  /** The identifiers a request carried. */
  function SentIds(request: map<Domain, Json>, d: Domain): set<string> {
    var items := RequestList(request, d);
    if items.Arr? then set item <- IdsOf(items.items, "id") | item.Str? :: item.s else {}
  }

  function Sent(request: map<Domain, Json>): (sent: Acknowledged)
    ensures Covers(sent)
  {
    AllDomains();
    map d: Domain | d in DOMAINS :: SentIds(request, d)
  }

  lemma AllDomains()
    ensures forall d: Domain :: d in DOMAINS
  {
    forall d: Domain ensures d in DOMAINS { EveryDomain(d); }
  }

  /** The identifiers a batch planner selected, in order. */
  type Selection = map<Domain, seq<string>>

  function SelectedIds(selected: Selection, d: Domain): set<string> {
    if d in selected then set id <- selected[d] else {}
  }

  /** What was selected is no longer known to be unsent; other proof stays. */
  ghost predicate Retired(before: Tables, after: Tables, h: History, selected: Selection, d: Domain) {
    && ProofAt(after, d) == ProofAt(before, d) - SelectedIds(selected, d)
    && forall id <- SelectedIds(selected, d) :: (d, id) in h.sent
  }

  ghost predicate Selectable(queues: Queues, selected: Selection) {
    forall d: Domain :: SelectedIds(selected, d) <= queues.At(d).Keys
  }

  function Carried(queue: Queue, ids: seq<string>): (items: seq<Json>)
    requires forall id <- ids :: id in queue
  {
    seq(|ids|, i requires 0 <= i < |ids| => Obj(queue[ids[i]]))
  }

  function CarriedFrom(queues: Queues, selected: Selection, d: Domain): seq<Json>
    requires Selectable(queues, selected)
  {
    assert SelectedIds(selected, d) <= queues.At(d).Keys;
    if d in selected then Carried(queues.At(d), selected[d]) else []
  }

  function PayloadOf(queues: Queues, selected: Selection): map<Domain, Json>
    requires Selectable(queues, selected)
  {
    map d: Domain | d in DOMAINS :: Arr(CarriedFrom(queues, selected, d))
  }

  lemma CarriedNames(queue: Queue, ids: seq<string>)
    requires Keyed(queue) && forall id <- ids :: id in queue
    ensures (set item <- IdsOf(Carried(queue, ids), "id") | item.Str? :: item.s) == set id <- ids
  {
    var named := IdsOf(Carried(queue, ids), "id");
    forall i | 0 <= i < |ids| ensures named[i] == Str(ids[i]) {
      assert ids[i] in ids;
    }
    forall id | id in ids ensures Str(id) in named {
      var i :| 0 <= i < |ids| && ids[i] == id;
      assert named[i] == Str(id);
    }
    forall item | item in named ensures item.Str? && item.s in ids {
      var i :| 0 <= i < |named| && named[i] == item;
    }
    forall id ensures id in (set item <- named | item.Str? :: item.s) <==> id in ids {
      if id in ids { assert Str(id) in named; }
    }
  }

  /** What a claim's answer must acknowledge is what was selected. */
  lemma PayloadNamesTheSelection(queues: Queues, selected: Selection, d: Domain)
    requires Selectable(queues, selected) && Keyed(queues.At(d))
    ensures SentIds(PayloadOf(queues, selected), d) == SelectedIds(selected, d)
  {
    EveryDomain(d);
    assert SelectedIds(selected, d) <= queues.At(d).Keys;
    assert RequestList(PayloadOf(queues, selected), d) == Arr(CarriedFrom(queues, selected, d));
    if d in selected { CarriedNames(queues.At(d), selected[d]); }
  }

  ghost predicate Acknowledges(request: map<Domain, Json>, response: SyncResponse, d: Domain) {
    && RequestList(request, d).Arr? && ResponseList(response, d).Arr?
    && AcknowledgesExactly(RequestList(request, d).items, ResponseList(response, d).items, AcknowledgementIdKey(d))
  }

  ghost predicate AcknowledgesAll(request: map<Domain, Json>, response: SyncResponse) {
    forall d: Domain :: Acknowledges(request, response, d)
  }

  ghost predicate Trusted(queue: Queue, now: nat) {
    forall id <- queue :: ClockOf(queue[id]).wall <= now + MAX_CLOCK_SKEW_MS
  }

  ghost predicate TrustedQueues(queues: Queues, now: nat) {
    forall d: Domain {:trigger Trusted(queues.At(d), now)} :: Trusted(queues.At(d), now)
  }

  /**
   * What a transaction finds before it touches anything: metadata within bounds, and rows that pass.
   * That sequence and clock cover the rows is part of `Consistent`.
   */
  ghost predicate Preflighted(t: Tables, deviceId: string, readers: Readers) {
    Bounded(t, deviceId) && QueuesPass(t.queues, deviceId, readers)
  }

  ghost predicate Bounded(t: Tables, deviceId: string) {
    && deviceId != "" && t.deviceSequence <= MAX_SAFE_INTEGER
    && t.hlc.wall <= MAX_SAFE_INTEGER && t.hlc.counter <= MAX_SAFE_INTEGER
    && (t.hlc.wall == 0 ==> t.hlc.counter == 0)
  }

  /** Requests are compared as Python compares them. */
  predicate SameRequest(a: map<Domain, Json>, b: map<Domain, Json>) {
    a.Keys == b.Keys && forall d <- a :: Equal(a[d], b[d])
  }

  /** A row is only rewritten when it differs; one that compares equal keeps its bytes. */
  function Kept(originals: Queue, retained: Queue): (rows: Queue)
    ensures rows.Keys == retained.Keys
  {
    map id | id in retained :: KeptRow(originals, id, retained[id])
  }

  function KeptRow(originals: Queue, id: string, row: Payload): Payload {
    if id in originals && Equal(Obj(row), Obj(originals[id])) then originals[id] else row
  }

  ghost predicate KeepsRows(originals: Queues, retained: Queues, rows: Queues) {
    forall d: Domain {:trigger Kept(originals.At(d), retained.At(d))} ::
      rows.At(d) == Kept(originals.At(d), retained.At(d))
  }

  /** When a sync may commit, the projection replay aside. */
  ghost predicate Installable(before: Tables, request: map<Domain, Json>, response: SyncResponse, output: Json,
                              now: nat, deviceId: string, show: Json -> string, readers: Readers) {
    && Verified(before, request, response, output, deviceId, show, readers)
    && AnswerStays(before.queues, output.members, now, deviceId, show, readers)
  }

  /** What must hold before anything is written. */
  ghost predicate Verified(before: Tables, request: map<Domain, Json>, response: SyncResponse, output: Json,
                           deviceId: string, show: Json -> string, readers: Readers) {
    && Preflighted(before, deviceId, readers)
    && AcknowledgesAll(request, response)
    && ValidScalars(response) && response.revision >= before.revision
    && OutputAgrees(output, before, Sent(request), response, deviceId, show)
  }

  ghost predicate KeepsAnswer(originals: Queues, members: map<string, Json>, rows: Queues, deviceId: string,
                              show: Json -> string) {
    forall d: Domain {:trigger RetainedRows(d, members, deviceId, show)} ::
      rows.At(d) == Kept(originals.At(d), RetainedRows(d, members, deviceId, show))
  }

  /** The rewritten rows pass again, and none is beyond the trusted time. */
  ghost predicate RowsStay(d: Domain, originals: Queue, retained: Queue, now: nat, deviceId: string, readers: Readers) {
    QueuePasses(d, Kept(originals, retained), deviceId, readers) && Trusted(Kept(originals, retained), now)
  }

  ghost predicate QueuesStay(originals: Queues, retained: Queues, now: nat, deviceId: string, readers: Readers) {
    forall d: Domain {:trigger RowsStay(d, originals.At(d), retained.At(d), now, deviceId, readers)} ::
      RowsStay(d, originals.At(d), retained.At(d), now, deviceId, readers)
  }

  ghost predicate AnswerStays(originals: Queues, members: map<string, Json>, now: nat, deviceId: string,
                              show: Json -> string, readers: Readers) {
    forall d: Domain {:trigger RetainedRows(d, members, deviceId, show)} ::
      RowsStay(d, originals.At(d), RetainedRows(d, members, deviceId, show), now, deviceId, readers)
  }

  lemma AnswerStaysAlike(originals: Queues, retained: Queues, members: map<string, Json>, now: nat, deviceId: string,
                         show: Json -> string, readers: Readers)
    requires Answered(members, retained, deviceId, show)
    ensures AnswerStays(originals, members, now, deviceId, show, readers) ==
              QueuesStay(originals, retained, now, deviceId, readers)
  {
    forall d: Domain
      ensures RowsStay(d, originals.At(d), retained.At(d), now, deviceId, readers) ==
                RowsStay(d, originals.At(d), RetainedRows(d, members, deviceId, show), now, deviceId, readers)
    {
      assert retained.At(d) == RetainedRows(d, members, deviceId, show);
    }
  }

  lemma KeptRowsStay(originals: Queues, retained: Queues, rows: Queues, now: nat, deviceId: string, readers: Readers)
    requires KeepsRows(originals, retained, rows)
    ensures QueuesStay(originals, retained, now, deviceId, readers) ==
              (QueuesPass(rows, deviceId, readers) && TrustedQueues(rows, now))
  {
    forall d: Domain
      ensures RowsStay(d, originals.At(d), retained.At(d), now, deviceId, readers) ==
                (QueuePasses(d, rows.At(d), deviceId, readers) && Trusted(rows.At(d), now))
    {
      assert rows.At(d) == Kept(originals.At(d), retained.At(d));
    }
  }

  /**
   * A queue after a commit: what was neither acknowledged nor dropped, each row the same but for what
   * may be adjusted, and the identical object exactly unless a null task was given or taken.
   */
  ghost predicate InstalledQueue(d: Domain, before: Queue, after: Queue, acknowledged: set<string>,
                                 dropped: set<string>) {
    && after.Keys == RetainedIds(d, before, acknowledged, dropped)
    && Keyed(after) && ShapedRows(d, after)
    && forall id <- after :: InstalledRow(d, before[id], after[id])
  }

  ghost predicate InstalledRow(d: Domain, before: Payload, after: Payload) {
    && SamePayload(d, before, after)
    && (IdenticalPayload(d, before, after) <==> !TogglesNullTask(d, before, after))
  }

  ghost predicate InstalledQueues(before: Queues, after: Queues, acknowledged: Acknowledged, dropped: set<string>)
    requires Covers(acknowledged)
  {
    forall d: Domain {:trigger InstalledQueue(d, before.At(d), after.At(d), acknowledged[d], dropped)} ::
      InstalledQueue(d, before.At(d), after.At(d), acknowledged[d], dropped)
  }

  /** Everything a committed sync does to the tables. */
  ghost predicate SyncEffect(before: Tables, after: Tables, request: map<Domain, Json>, dropped: set<string>,
                             response: SyncResponse) {
    && dropped <= before.queues.commands.Keys - Sent(request)[Commands]
    && InstalledQueues(before.queues, after.queues, Sent(request), dropped)
    && ParentsRetained(after.parents, after.queues.commands)
    && ProofKept(before, after)
    && after.revision == response.revision && response.revision >= before.revision
    && after.head == Some(response.serverClock)
    && after.deviceSequence == before.deviceSequence
  }

  /** A commit: its effect on the queues, the merged clock, and rows that pass again. */
  ghost predicate Installed(before: Tables, after: Tables, request: map<Domain, Json>, dropped: set<string>,
                            response: SyncResponse, now: nat, deviceId: string, readers: Readers) {
    && SyncEffect(before, after, request, dropped, response)
    && Merges(after.(hlc := before.hlc), response.serverClock, now, after.hlc)
    && Preflighted(after, deviceId, readers)
  }

  /** The request carried the operation. */
  ghost predicate Sends(request: map<Domain, Json>, d: Domain, id: string) {
    d in request && request[d].Arr? && exists item <- request[d].items :: Names(item, "id", id)
  }

  predicate Names(item: Json, key: string, id: string) {
    item.Obj? && key in item.members && item.members[key] == Str(id)
  }

  /** The server says what became of it. */
  ghost predicate Tells(response: SyncResponse, d: Domain, id: string) {
    && d in response.acknowledgements && response.acknowledgements[d].Arr?
    && exists item <- response.acknowledgements[d].items ::
         && Names(item, if d == Commands then "commandId" else "operationId", id)
         && "outcome" in item.members
         && item.members["outcome"] in {Str("applied"), Str("ignored"), Str("rejected")}
  }

  /**
   * A commit on the request and the answers themselves: the server told of exactly what was sent,
   * and what is gone from a queue is exactly that and the commands the core dropped.
   */
  ghost predicate Consumes(before: Queues, after: Queues, request: map<Domain, Json>, response: SyncResponse,
                           members: map<string, Json>) {
    forall d: Domain {:trigger ConsumesFrom(d, before.At(d), after.At(d), request, response, members)} ::
      ConsumesFrom(d, before.At(d), after.At(d), request, response, members)
  }

  ghost predicate ConsumesFrom(d: Domain, before: Queue, after: Queue, request: map<Domain, Json>,
                               response: SyncResponse, members: map<string, Json>) {
    forall id: string ::
      && (Sends(request, d, id) <==> Tells(response, d, id))
      && (id in after <==> id in before && !Sends(request, d, id) && !(d == Commands && Drops(members, id)))
  }

  lemma SentAreNamed(request: map<Domain, Json>, d: Domain, id: string)
    ensures id in SentIds(request, d) <==> Sends(request, d, id)
  {
    var items := RequestList(request, d);
    if items.Arr? {
      var ids := IdsOf(items.items, "id");
      if id in SentIds(request, d) {
        var i :| 0 <= i < |ids| && ids[i] == Str(id);
        assert items.items[i] in items.items && Names(items.items[i], "id", id);
      }
      if Sends(request, d, id) {
        var i :| 0 <= i < |items.items| && Names(items.items[i], "id", id);
        assert ids[i] in ids && ids[i] == Str(id);
      }
    }
  }

  lemma AcknowledgedAreTold(request: map<Domain, Json>, response: SyncResponse, d: Domain, id: string)
    requires Acknowledges(request, response, d)
    ensures Sends(request, d, id) <==> Tells(response, d, id)
  {
    SentAreNamed(request, d, id);
    var key := AcknowledgementIdKey(d);
    var items, acked := RequestList(request, d).items, ResponseList(response, d).items;
    var sent, told := IdsOf(items, "id"), IdsOf(acked, key);
    assert id in SentIds(request, d) <==> Str(id) in sent by {
      if Str(id) in sent { assert Str(id).Str?; }
    }
    assert Str(id) in sent <==> Str(id) in told;
    if Str(id) in told {
      var i :| 0 <= i < |told| && told[i] == Str(id);
      assert acked[i] in acked && ValidAcknowledgement(acked[i], key) && Names(acked[i], key, id);
    }
    if Tells(response, d, id) {
      var i :| 0 <= i < |acked| && Names(acked[i], key, id);
      assert told[i] in told;
    }
  }

  lemma CommitConsumes(before: Tables, after: Tables, request: map<Domain, Json>, response: SyncResponse,
                       members: map<string, Json>)
    requires SyncEffect(before, after, request, Dropped(members), response) && AcknowledgesAll(request, response)
    ensures Consumes(before.queues, after.queues, request, response, members)
  {
    forall d: Domain
      ensures ConsumesFrom(d, before.queues.At(d), after.queues.At(d), request, response, members)
    {
      assert Acknowledges(request, response, d);
      assert InstalledQueue(d, before.queues.At(d), after.queues.At(d), Sent(request)[d], Dropped(members));
      forall id: string
        ensures Sends(request, d, id) <==> Tells(response, d, id)
        ensures id in after.queues.At(d) <==>
                  id in before.queues.At(d) && !Sends(request, d, id) && !(d == Commands && Drops(members, id))
      {
        AcknowledgedAreTold(request, response, d, id);
        SentAreNamed(request, d, id);
        DroppedAreListed(members, id);
      }
    }
  }

  /** Proof is kept for exactly the rows that are. */
  ghost predicate ProofKept(before: Tables, after: Tables) {
    forall d: Domain {:trigger ProofAt(after, d)} ::
      ProofAt(after, d) == ProofAt(before, d) * after.queues.At(d).Keys
  }

  /** A merged clock: at or above everything it must cover, and never invented. */
  ghost predicate Merges(t: Tables, server: Clock, now: nat, merged: Clock) {
    && AtLeast(merged, server)
    && QueuesCovered(t.queues, merged)
    && (0 < t.hlc.wall <= now + MAX_CLOCK_SKEW_MS ==> AtLeast(merged, t.hlc))
    && (|| merged == server || IsQueuedClock(t.queues, merged)
        || (merged == t.hlc && 0 < t.hlc.wall <= now + MAX_CLOCK_SKEW_MS))
  }

  ghost predicate Covered(queue: Queue, clock: Clock) {
    forall id <- queue | ClockOf(queue[id]).wall > 0 :: AtLeast(clock, ClockOf(queue[id]))
  }

  ghost predicate IsRowClock(queue: Queue, clock: Clock) {
    exists id <- queue :: ClockOf(queue[id]) == clock
  }

  ghost predicate QueuesCovered(queues: Queues, clock: Clock) {
    forall d: Domain {:trigger Covered(queues.At(d), clock)} :: Covered(queues.At(d), clock)
  }

  ghost predicate IsQueuedClock(queues: Queues, clock: Clock) {
    exists d: Domain {:trigger IsRowClock(queues.At(d), clock)} :: IsRowClock(queues.At(d), clock)
  }

  lemma CoverGrows(queue: Queue, less: Clock, more: Clock)
    requires Covered(queue, less) && AtLeast(more, less)
    ensures Covered(queue, more)
  {
  }

  // ----- What an install keeps -----

  lemma KeptRowIsInstalled(d: Domain, id: string, originals: Queue, row: Payload, deviceId: string, readers: Readers)
    requires id in originals && Alike(d, originals[id], row) && Shaped(d, originals[id]) && Shaped(d, row)
    requires ValidRow(d, id, originals[id], deviceId, readers)
    requires ValidRow(d, id, KeptRow(originals, id, row), deviceId, readers)
    ensures InstalledRow(d, originals[id], KeptRow(originals, id, row))
    ensures Shaped(d, KeptRow(originals, id, row))
  {
    var kept := KeptRow(originals, id, row);
    if kept == row { AlikeRowsAreTheSame(d, id, originals[id], row, deviceId, readers); }
  }

  /** Rewriting what the core answered, between two checks of the rows, keeps what was promised of them. */
  lemma KeptIsInstalled(d: Domain, before: Queue, retained: Queue, acknowledged: set<string>, dropped: set<string>,
                        deviceId: string, readers: Readers)
    requires Keyed(before) && ShapedRows(d, before) && AcceptedQueue(d, before, retained, acknowledged, dropped)
    requires QueuePasses(d, before, deviceId, readers) && QueuePasses(d, Kept(before, retained), deviceId, readers)
    ensures InstalledQueue(d, before, Kept(before, retained), acknowledged, dropped)
  {
    var kept := Kept(before, retained);
    forall id | id in kept
      ensures InstalledRow(d, before[id], kept[id]) && Shaped(d, kept[id]) && Get(kept[id], "id") == Str(id)
    {
      assert kept[id] == KeptRow(before, id, retained[id]);
      KeptRowIsInstalled(d, id, before, retained[id], deviceId, readers);
    }
  }

  lemma KeptAreInstalled(before: Tables, accepted: Accepted, rows: Queues, acknowledged: Acknowledged, deviceId: string,
                         readers: Readers)
    requires WellFormed(before) && Covers(acknowledged) && AcceptedOutput(before, acknowledged, accepted)
    requires KeepsRows(before.queues, accepted.queues, rows)
    requires QueuesPass(before.queues, deviceId, readers) && QueuesPass(rows, deviceId, readers)
    ensures InstalledQueues(before.queues, rows, acknowledged, accepted.dropped)
  {
    forall d: Domain
      ensures InstalledQueue(d, before.queues.At(d), rows.At(d), acknowledged[d], accepted.dropped)
    {
      assert rows.At(d) == Kept(before.queues.At(d), accepted.queues.At(d));
      assert DomainFormed(before, d);
      assert QueuePasses(d, before.queues.At(d), deviceId, readers) && QueuePasses(d, rows.At(d), deviceId, readers);
      KeptIsInstalled(d, before.queues.At(d), accepted.queues.At(d), acknowledged[d], accepted.dropped, deviceId,
                      readers);
    }
  }

  lemma InstalledDurations(before: Queue, after: Queue, acknowledged: set<string>, dropped: set<string>)
    requires OnePerPhase(before) && InstalledQueue(DurationOperations, before, after, acknowledged, dropped)
    ensures OnePerPhase(after)
  {
    forall a: string, b: string ensures !SharePhase(after, a, b) {
      assert !SharePhase(before, a, b);
      assert "phase" !in Adjustable(DurationOperations);
    }
  }

  lemma InstallStaysWellFormed(before: Tables, after: Tables, acknowledged: Acknowledged, dropped: set<string>)
    requires WellFormed(before) && Covers(acknowledged)
    requires InstalledQueues(before.queues, after.queues, acknowledged, dropped)
    requires ProofKept(before, after) && ParentsRetained(after.parents, after.queues.commands)
    ensures WellFormed(after)
  {
    forall d: Domain ensures DomainFormed(after, d) {
      assert InstalledQueue(d, before.queues.At(d), after.queues.At(d), acknowledged[d], dropped);
      assert ProofAt(after, d) == ProofAt(before, d) * after.queues.At(d).Keys;
    }
    assert InstalledQueue(DurationOperations, before.queues.At(DurationOperations), after.queues.At(DurationOperations),
                          acknowledged[DurationOperations], dropped);
    InstalledDurations(before.queues.durations, after.queues.durations, acknowledged[DurationOperations], dropped);
  }

  lemma InstallStaysSequenced(before: Tables, after: Tables, acknowledged: Acknowledged, dropped: set<string>)
    requires SequencesCovered(before) && Covers(acknowledged) && after.deviceSequence == before.deviceSequence
    requires InstalledQueues(before.queues, after.queues, acknowledged, dropped)
    ensures SequencesCovered(after)
  {
    var rows, earlier := after.queues.commands, before.queues.commands;
    assert rows == after.queues.At(Commands) && earlier == before.queues.At(Commands);
    assert InstalledQueue(Commands, earlier, rows, acknowledged[Commands], dropped);
    forall id <- rows ensures SequenceOf(rows[id]) == SequenceOf(earlier[id]) {
      SamePayloadKeepsClocks(Commands, earlier[id], rows[id]);
    }
    forall a: string, b: string ensures !ShareSequence(rows, a, b) {
      assert !ShareSequence(earlier, a, b);
    }
  }

  lemma InstallStaysConsistent(before: Tables, persisted: Tables, after: Tables, h: History,
                               acknowledged: Acknowledged, dropped: set<string>, server: Clock, revision: nat, now: nat)
    requires Consistent(before, h) && Covers(acknowledged) && server.wall > 0
    requires InstalledQueues(before.queues, persisted.queues, acknowledged, dropped)
    requires ProofKept(before, persisted) && ParentsRetained(persisted.parents, persisted.queues.commands)
    requires persisted.deviceSequence == before.deviceSequence
    requires Merges(persisted, server, now, after.hlc)
    requires after == persisted.(hlc := after.hlc, head := Some(server), revision := revision)
    ensures Consistent(after, h.(recent := {}))
  {
    assert after.queues == persisted.queues && after.proof == persisted.proof && after.parents == persisted.parents;
    SameProofKept(before, persisted, after);
    InstallStaysWellFormed(before, after, acknowledged, dropped);
    InstallStaysSequenced(before, after, acknowledged, dropped);
    InstallStaysCovered(persisted, after, server, now);
  }

  function WithHead(t: Tables, merged: Clock, response: SyncResponse): Tables {
    t.(hlc := merged, head := Some(response.serverClock), revision := response.revision)
  }

  /** The rewritten rows under the merged clock: consistent, and all that a commit promises. */
  lemma InstallIsSound(before: Tables, persisted: Tables, h: History, request: map<Domain, Json>, accepted: Accepted,
                       response: SyncResponse, merged: Clock, now: nat, deviceId: string, readers: Readers)
    requires Consistent(before, h) && Preflighted(before, deviceId, readers)
    requires ValidScalars(response) && response.revision >= before.revision
    requires AcceptedOutput(before, Sent(request), accepted)
    requires KeepsRows(before.queues, accepted.queues, persisted.queues)
    requires persisted == before.(queues := persisted.queues, parents := accepted.parents, proof := persisted.proof)
    requires ProofKept(before, persisted) && QueuesPass(persisted.queues, deviceId, readers)
    requires Merges(persisted, response.serverClock, now, merged)
    ensures var after := WithHead(persisted, merged, response);
            && Consistent(after, h.(recent := {}))
            && Installed(before, after, request, accepted.dropped, response, now, deviceId, readers)
  {
    var after := WithHead(persisted, merged, response);
    KeptAreInstalled(before, accepted, persisted.queues, Sent(request), deviceId, readers);
    KeptParentsStay(before, accepted, persisted.queues);
    InstallStaysConsistent(before, persisted, after, h, Sent(request), accepted.dropped, response.serverClock,
                           response.revision, now);
    SameProofKept(before, persisted, after);
    MergedStaysBounded(persisted, response, now, merged, deviceId, readers);
    SameMerge(persisted, after.(hlc := before.hlc), response.serverClock, now, merged);
  }

  lemma KeptParentsStay(before: Tables, accepted: Accepted, rows: Queues)
    requires ParentsRetained(accepted.parents, accepted.queues.commands)
    requires KeepsRows(before.queues, accepted.queues, rows)
    ensures ParentsRetained(accepted.parents, rows.commands)
  {
    assert rows.At(Commands) == Kept(before.queues.At(Commands), accepted.queues.At(Commands));
  }

  lemma SameProofKept(before: Tables, persisted: Tables, after: Tables)
    requires ProofKept(before, persisted) && after.queues == persisted.queues && after.proof == persisted.proof
    ensures ProofKept(before, after)
  {
    forall d: Domain ensures ProofAt(after, d) == ProofAt(before, d) * after.queues.At(d).Keys {
      assert ProofAt(persisted, d) == ProofAt(before, d) * persisted.queues.At(d).Keys;
    }
  }

  /** Only queues and persisted clock matter to a merge. */
  lemma SameMerge(a: Tables, b: Tables, server: Clock, now: nat, merged: Clock)
    requires a.queues == b.queues && a.hlc == b.hlc && Merges(a, server, now, merged)
    ensures Merges(b, server, now, merged)
  {
  }

  lemma InstallStaysCovered(persisted: Tables, after: Tables, server: Clock, now: nat)
    requires server.wall > 0 && Merges(persisted, server, now, after.hlc)
    requires after.queues == persisted.queues && after.head == Some(server)
    ensures ClocksCovered(after)
  {
    forall d: Domain ensures RowsCovered(after.queues.At(d), after.hlc) {
      assert Covered(persisted.queues.At(d), after.hlc);
    }
  }

  lemma LatestDecidesTrust(queues: Queues, latest: Clock, now: nat)
    requires QueuesCovered(queues, latest)
    requires latest == Clock(0, 0) || IsQueuedClock(queues, latest)
    ensures latest.wall <= now + MAX_CLOCK_SKEW_MS <==> TrustedQueues(queues, now)
  {
    if latest.wall <= now + MAX_CLOCK_SKEW_MS {
      forall d: Domain ensures Trusted(queues.At(d), now) { assert Covered(queues.At(d), latest); }
    } else {
      var d: Domain :| IsRowClock(queues.At(d), latest);
      assert !Trusted(queues.At(d), now);
    }
  }

  function ProofRetired(t: Tables, d: Domain, ids: set<string>): Tables {
    t.(proof := t.proof[d := ProofAt(t, d) - ids])
  }

  function SentToo(h: History, d: Domain, ids: set<string>): History {
    h.(sent := h.sent + set id <- ids :: (d, id))
  }

  lemma RetiringStaysFormed(t: Tables, d: Domain, ids: set<string>)
    requires WellFormed(t)
    ensures WellFormed(ProofRetired(t, d, ids))
  {
    forall e: Domain ensures DomainFormed(ProofRetired(t, d, ids), e) { assert DomainFormed(t, e); }
  }

  lemma RetiringStaysRecent(t: Tables, h: History, d: Domain, ids: set<string>)
    requires RecentRows(t, h)
    ensures RecentRows(ProofRetired(t, d, ids), SentToo(h, d, ids))
  {
    var after, later := ProofRetired(t, d, ids), SentToo(h, d, ids);
    forall e: Domain, x: string | (e, x) in later.recent && x in after.queues.At(e)
      ensures IsRecent(after, later, e, x)
    {
      assert IsRecent(t, h, e, x);
    }
  }

  lemma RetiringStaysConsistent(t: Tables, h: History, d: Domain, ids: set<string>)
    requires Consistent(t, h)
    ensures Consistent(ProofRetired(t, d, ids), SentToo(h, d, ids))
  {
    RetiringStaysFormed(t, d, ids);
    RetiringStaysRecent(t, h, d, ids);
    assert ClocksCovered(ProofRetired(t, d, ids)) by {
      assert ProofRetired(t, d, ids).queues == t.queues;
    }
  }

  /** The `i`th clock of a batch: the counter goes up, from zero if time has moved on. */
  function NthClock(start: Clock, now: nat, i: nat): (clock: Clock)
    ensures Later(clock, start)
  {
    if now > start.wall then Clock(now, i) else Clock(start.wall, start.counter + i + 1)
  }

  lemma ClocksAscend(start: Clock, now: nat, i: nat, j: nat)
    requires i < j
    ensures Later(NthClock(start, now, j), NthClock(start, now, i))
  {
  }

  /** No counter of the batch passes the largest safe integer. */
  predicate HasRoom(start: Clock, now: nat, count: nat) {
    count == 0 || (if now > start.wall then count - 1 else start.counter + count) <= MAX_SAFE_INTEGER
  }

  /** Sequences and clocks for a batch are to be had. */
  predicate Reservable(t: Tables, now: nat, sequenceCount: nat, clockCount: nat) {
    && t.deviceSequence + sequenceCount <= MAX_SAFE_INTEGER
    && t.hlc.wall <= now + MAX_CLOCK_SKEW_MS
    && HasRoom(t.hlc, now, clockCount)
  }

  /** A command to be queued: its members, and the command it waits for. */
  datatype Draft = Draft(id: string, fields: Payload, dependsOn: Option<string>)

  ghost predicate IdIn(id: string, batch: seq<Draft>) {
    exists i :: 0 <= i < |batch| && batch[i].id == id
  }

  /** The identifiers are all different and none is taken. */
  ghost predicate AreFree(batch: seq<Draft>, t: Tables) {
    forall i | 0 <= i < |batch| :: batch[i].id !in t.queues.commands && !IdIn(batch[i].id, batch[..i])
  }

  /** Each waits for a pending command, or for an earlier one of the batch. */
  ghost predicate MayWait(batch: seq<Draft>, t: Tables) {
    forall i | 0 <= i < |batch| && batch[i].dependsOn.Some? ::
      batch[i].dependsOn.value in t.queues.commands || IdIn(batch[i].dependsOn.value, batch[..i])
  }

  /** One command more, with its proof, its sequence, its clock and the parent it was given. */
  function CommandAdded(t: Tables, id: string, command: Payload, dependsOn: Option<string>): Tables {
    var after := Persisted(t, Commands, id, command, {});
    if dependsOn.Some? then after.(parents := after.parents[id := dependsOn.value]) else after
  }

  function NthCommand(t: Tables, draft: Draft, now: nat, n: nat): Payload {
    Sequenced(draft.fields, draft.id, t.deviceSequence + n + 1, NthClock(t.hlc, now, n))
  }

  /**
   * What queueing a batch comes to: each command as it was given, with its own sequence and clock,
   * its parent and its proof, and everything else as it was.
   */
  ghost predicate BatchQueued(before: Tables, after: Tables, batch: seq<Draft>, now: nat) {
    && after == before.(queues := before.queues.(commands := after.queues.commands), parents := after.parents,
                        proof := after.proof, hlc := after.hlc, deviceSequence := after.deviceSequence)
    && after.deviceSequence == before.deviceSequence + |batch|
    && after.hlc == (if batch == [] then before.hlc else NthClock(before.hlc, now, |batch| - 1))
    && (forall i | 0 <= i < |batch| :: CommandQueued(before, after, batch[i], now, i))
    && OthersStay(before, after, batch)
    && ProofAdded(before, after, batch)
  }

  ghost predicate OthersStay(before: Tables, after: Tables, batch: seq<Draft>) {
    && (forall id :: id in after.queues.commands <==> id in before.queues.commands || IdIn(id, batch))
    && (forall id <- before.queues.commands ::
          id in after.queues.commands && after.queues.commands[id] == before.queues.commands[id])
    && (forall id | !IdIn(id, batch) :: At(after.parents, id) == At(before.parents, id))
  }

  ghost predicate ProofAdded(before: Tables, after: Tables, batch: seq<Draft>) {
    forall d: Domain, id: string {:trigger id in ProofAt(after, d)} ::
      id in ProofAt(after, d) <==> id in ProofAt(before, d) || (d == Commands && IdIn(id, batch))
  }

  /** A new command: as it was given, with its own sequence and clock, and its parent. */
  ghost predicate CommandQueued(before: Tables, after: Tables, draft: Draft, now: nat, i: nat) {
    && draft.id in after.queues.commands && draft.id !in before.queues.commands
    && At(after.parents, draft.id) == draft.dependsOn
    && var command := after.queues.commands[draft.id];
       command == Sequenced(draft.fields, draft.id, before.deviceSequence + i + 1, NthClock(before.hlc, now, i))
  }

  lemma IdInOneMore(id: string, batch: seq<Draft>, i: nat)
    requires i < |batch|
    ensures IdIn(id, batch[..i + 1]) <==> IdIn(id, batch[..i]) || batch[i].id == id
  {
    var more, less := batch[..i + 1], batch[..i];
    if IdIn(id, less) {
      var k :| 0 <= k < i && less[k].id == id;
      assert more[k].id == id;
    }
    if batch[i].id == id { assert more[i].id == id; }
    if IdIn(id, more) {
      var k :| 0 <= k <= i && more[k].id == id;
      if k < i { assert less[k].id == id; }
    }
  }

  /** The first so many of a batch that may be queued may be. */
  lemma FreeSoFar(batch: seq<Draft>, t: Tables, n: nat)
    requires n <= |batch|
    ensures AreFree(batch, t) ==> AreFree(batch[..n], t)
    ensures MayWait(batch, t) ==> MayWait(batch[..n], t)
  {
    forall i | 0 <= i < n ensures batch[..n][i] == batch[i] && batch[..n][..i] == batch[..i] {}
  }

  lemma OneMoreFree(batch: seq<Draft>, t: Tables, n: nat)
    requires n < |batch| && AreFree(batch[..n], t)
    ensures AreFree(batch[..n + 1], t) <==> batch[n].id !in t.queues.commands && !IdIn(batch[n].id, batch[..n])
  {
    var more, less := batch[..n + 1], batch[..n];
    assert more[..n] == less;
    forall i | 0 <= i < n ensures less[i] == more[i] && less[..i] == more[..i] {}
    if batch[n].id !in t.queues.commands && !IdIn(batch[n].id, less) {
      forall i | 0 <= i <= n ensures more[i].id !in t.queues.commands && !IdIn(more[i].id, more[..i]) {
        if i < n { assert less[i].id !in t.queues.commands && !IdIn(less[i].id, less[..i]); }
      }
    } else {
      assert !AreFree(more, t) by { assert more[n] == batch[n]; }
    }
  }

  lemma NextIsFree(batch: seq<Draft>, t: Tables, n: nat)
    requires n < |batch| && AreFree(batch[..n + 1], t)
    ensures batch[n].id !in t.queues.commands && !IdIn(batch[n].id, batch[..n])
  {
    assert batch[..n + 1][n] == batch[n] && batch[..n + 1][..n] == batch[..n];
  }

  lemma BatchGrows(t: Tables, before: Tables, batch: seq<Draft>, now: nat, n: nat)
    requires n < |batch| && WellFormed(t) && BatchQueued(t, before, batch[..n], now)
    requires batch[n].id !in t.queues.commands && !IdIn(batch[n].id, batch[..n])
    ensures BatchQueued(t, CommandAdded(before, batch[n].id, NthCommand(t, batch[n], now, n), batch[n].dependsOn),
                        batch[..n + 1], now)
  {
    var draft, command := batch[n], NthCommand(t, batch[n], now, n);
    var after, more := CommandAdded(before, draft.id, command, draft.dependsOn), batch[..n + 1];
    AddedCommand(before, draft.id, command, draft.dependsOn);
    CommandsStayQueued(t, before, after, batch, now, n);
    ProofStaysAdded(t, before, batch, now, n);
    forall i | 0 <= i < |more| ensures CommandQueued(t, after, more[i], now, i) {
      assert more[i] == batch[i] && CommandQueued(t, after, batch[i], now, i);
    }
    StillStay(t, before, after, batch, n);
  }

  lemma StillStay(t: Tables, before: Tables, after: Tables, batch: seq<Draft>, n: nat)
    requires n < |batch| && OthersStay(t, before, batch[..n]) && batch[n].id !in t.queues.commands
    requires after.queues.commands.Keys == before.queues.commands.Keys + {batch[n].id}
    requires forall id <- before.queues.commands | id != batch[n].id ::
               after.queues.commands[id] == before.queues.commands[id]
    requires forall id | id != batch[n].id :: At(after.parents, id) == At(before.parents, id)
    ensures OthersStay(t, after, batch[..n + 1])
  {
    forall id ensures IdIn(id, batch[..n + 1]) <==> IdIn(id, batch[..n]) || batch[n].id == id {
      IdInOneMore(id, batch, n);
    }
  }

  lemma CommandsStayQueued(t: Tables, before: Tables, after: Tables, batch: seq<Draft>, now: nat, n: nat)
    requires n < |batch| && WellFormed(t) && BatchQueued(t, before, batch[..n], now)
    requires batch[n].id !in t.queues.commands && !IdIn(batch[n].id, batch[..n])
    requires after.queues.commands == before.queues.commands[batch[n].id := NthCommand(t, batch[n], now, n)]
    requires after.parents == if batch[n].dependsOn.Some? then before.parents[batch[n].id := batch[n].dependsOn.value]
                              else before.parents
    ensures forall i | 0 <= i <= n :: CommandQueued(t, after, batch[i], now, i)
  {
    LastIsQueued(t, before, after, batch, now, n);
    var draft := batch[n];
    forall i | 0 <= i < n ensures CommandQueued(t, after, batch[i], now, i) {
      assert batch[..n][i] == batch[i] && CommandQueued(t, before, batch[..n][i], now, i);
      StaysQueued(t, before, after, batch[i], now, i, draft.id);
    }
  }

  lemma LastIsQueued(t: Tables, before: Tables, after: Tables, batch: seq<Draft>, now: nat, n: nat)
    requires n < |batch| && WellFormed(t) && BatchQueued(t, before, batch[..n], now)
    requires batch[n].id !in t.queues.commands && !IdIn(batch[n].id, batch[..n])
    requires after.queues.commands == before.queues.commands[batch[n].id := NthCommand(t, batch[n], now, n)]
    requires after.parents == if batch[n].dependsOn.Some? then before.parents[batch[n].id := batch[n].dependsOn.value]
                              else before.parents
    ensures CommandQueued(t, after, batch[n], now, n)
  {
    assert At(before.parents, batch[n].id) == At(t.parents, batch[n].id);
    assert At(before.parents, batch[n].id) == None;
  }

  lemma StaysQueued(t: Tables, before: Tables, after: Tables, draft: Draft, now: nat, i: nat, added: string)
    requires CommandQueued(t, before, draft, now, i) && draft.id != added
    requires draft.id in after.queues.commands
    requires after.queues.commands[draft.id] == before.queues.commands[draft.id]
    requires At(after.parents, draft.id) == At(before.parents, draft.id)
    ensures CommandQueued(t, after, draft, now, i)
  {
  }

  lemma ProofStaysAdded(t: Tables, before: Tables, batch: seq<Draft>, now: nat, n: nat)
    requires n < |batch| && ProofAdded(t, before, batch[..n])
    ensures ProofAdded(t, CommandAdded(before, batch[n].id, NthCommand(t, batch[n], now, n), batch[n].dependsOn),
                       batch[..n + 1])
  {
    var draft, command := batch[n], NthCommand(t, batch[n], now, n);
    var after := CommandAdded(before, draft.id, command, draft.dependsOn);
    AddedCommand(before, draft.id, command, draft.dependsOn);
    forall d: Domain, id: string
      ensures id in ProofAt(after, d) <==> id in ProofAt(t, d) || (d == Commands && IdIn(id, batch[..n + 1]))
    {
      assert id in ProofAt(before, d) <==> id in ProofAt(t, d) || (d == Commands && IdIn(id, batch[..n]));
      IdInOneMore(id, batch, n);
    }
  }

  /** What queueing the next command of a batch needs. */
  lemma NextMayBeQueued(t: Tables, before: Tables, batch: seq<Draft>, now: nat, n: nat)
    requires n < |batch| && MayWait(batch, t) && BatchQueued(t, before, batch[..n], now)
    ensures before.deviceSequence == t.deviceSequence + n && Later(NthClock(t.hlc, now, n), before.hlc)
    ensures batch[n].dependsOn.Some? ==> batch[n].dependsOn.value in before.queues.commands
    ensures batch[n].id in before.queues.commands <==> batch[n].id in t.queues.commands || IdIn(batch[n].id, batch[..n])
  {
    if n > 0 { ClocksAscend(t.hlc, now, n - 1, n); }
  }

  lemma NthIsReady(t: Tables, draft: Draft, now: nat, n: nat)
    requires Shaped(Commands, draft.fields)
    ensures var command := NthCommand(t, draft, now, n);
            && Shaped(Commands, command) && Get(command, "id") == Str(draft.id)
            && SequenceOf(command) == t.deviceSequence + n + 1 && ClockOf(command) == NthClock(t.hlc, now, n)
  {
    StampedIsShaped(Commands, draft.fields, draft.id, NthClock(t.hlc, now, n));
  }

  lemma EmptyBatchIsQueued(t: Tables, now: nat)
    ensures BatchQueued(t, t, [], now)
  {
  }

  lemma AddedCommand(t: Tables, id: string, command: Payload, dependsOn: Option<string>)
    ensures var after := CommandAdded(t, id, command, dependsOn);
            && after == t.(queues := t.queues.(commands := t.queues.commands[id := command]), parents := after.parents,
                           proof := after.proof, hlc := ClockOf(command), deviceSequence := SequenceOf(command))
            && after.parents == (if dependsOn.Some? then t.parents[id := dependsOn.value] else t.parents)
            && forall d: Domain :: ProofAt(after, d) == ProofAt(t, d) + if d == Commands then {id} else {}
  {
    PersistedCommand(t, id, command);
  }

  lemma PersistedCommand(t: Tables, id: string, command: Payload)
    ensures SamePhase(Commands, t.queues.At(Commands), Get(command, "phase")) == {}
    ensures var after := Persisted(t, Commands, id, command, {});
            && after.queues == t.queues.(commands := t.queues.commands[id := command])
            && after.hlc == ClockOf(command) && after.deviceSequence == SequenceOf(command)
  {
    assert t.queues.At(Commands) - {} == t.queues.commands;
  }

  /** The rows of a domain are the objects they were, what may be adjusted aside. */
  ghost predicate RowsIdentical(d: Domain, before: Queue, after: Queue) {
    forall id <- after :: id in before && IdenticalPayload(d, before[id], after[id])
  }

  /** A command that was queued without a task has a null one now, or the other way round. */
  ghost predicate NullTaskToggled(before: Queue, after: Queue) {
    exists id <- after :: id in before && TogglesNullTask(Commands, before[id], after[id])
  }

  lemma RowsIdenticalExactly(d: Domain, before: Queue, after: Queue, acknowledged: set<string>, dropped: set<string>)
    requires InstalledQueue(d, before, after, acknowledged, dropped)
    ensures RowsIdentical(d, before, after) <==> (d == Commands ==> !NullTaskToggled(before, after))
  {
    forall id | id in after
      ensures IdenticalPayload(d, before[id], after[id]) <==> !TogglesNullTask(d, before[id], after[id])
    {
      assert InstalledRow(d, before[id], after[id]);
    }
  }

  /**
   * A committed sync leaves every kept row the object it was exactly unless a command other than a
   * retarget is given a null task or loses one.
   */
  lemma SyncKeepsRowsExactlyUnlessNullTaskToggles(before: Tables, after: Tables, request: map<Domain, Json>,
                                                  dropped: set<string>, response: SyncResponse)
    requires SyncEffect(before, after, request, dropped, response)
    ensures (forall d: Domain {:trigger RowsIdentical(d, before.queues.At(d), after.queues.At(d))} ::
               RowsIdentical(d, before.queues.At(d), after.queues.At(d))) <==>
              !NullTaskToggled(before.queues.commands, after.queues.commands)
  {
    forall d: Domain
      ensures RowsIdentical(d, before.queues.At(d), after.queues.At(d)) <==>
                (d == Commands ==> !NullTaskToggled(before.queues.commands, after.queues.commands))
    {
      assert InstalledQueue(d, before.queues.At(d), after.queues.At(d), Sent(request)[d], dropped);
      RowsIdenticalExactly(d, before.queues.At(d), after.queues.At(d), Sent(request)[d], dropped);
    }
    assert RowsIdentical(Commands, before.queues.At(Commands), after.queues.At(Commands)) <==>
           !NullTaskToggled(before.queues.commands, after.queues.commands);
  }

  /** A row that passes has its clock within the safe integers. */
  lemma RowClockIsBounded(d: Domain, id: string, p: Payload, deviceId: string, readers: Readers)
    requires ValidRow(d, id, p, deviceId, readers)
    ensures ClockOf(p).wall <= MAX_SAFE_INTEGER && ClockOf(p).counter <= MAX_SAFE_INTEGER
    ensures ClockOf(p).wall == 0 ==> ClockOf(p).counter == 0
  {
    assert HasClock(p, readers, d !in {Commands, TaskOperations});
  }

  lemma MergedStaysBounded(t: Tables, response: SyncResponse, now: nat, merged: Clock, deviceId: string,
                           readers: Readers)
    requires Bounded(t, deviceId) && QueuesPass(t.queues, deviceId, readers) && ValidScalars(response)
    requires Merges(t, response.serverClock, now, merged)
    ensures Bounded(t.(hlc := merged, head := Some(response.serverClock), revision := response.revision), deviceId)
  {
    if merged != response.serverClock && merged != t.hlc {
      var d: Domain :| IsRowClock(t.queues.At(d), merged);
      var id :| id in t.queues.At(d) && ClockOf(t.queues.At(d)[id]) == merged;
      assert QueuePasses(d, t.queues.At(d), deviceId, readers);
      RowClockIsBounded(d, id, t.queues.At(d)[id], deviceId, readers);
    }
  }

  lemma StampedIsShaped(d: Domain, fields: Payload, id: string, clock: Clock)
    requires Shaped(d, fields)
    ensures Shaped(d, Stamped(fields, id, clock))
    ensures d == Commands ==> forall sequence: nat :: Shaped(d, Sequenced(fields, id, sequence, clock))
  {
    assert {"id", "hlcWallMs", "hlcCounter"} <= StoredFields(d);
    assert d == Commands ==> "deviceSequence" in StoredFields(d);
  }

  function Stamped(fields: Payload, id: string, clock: Clock): (p: Payload)
    ensures ClockOf(p) == clock && Get(p, "id") == Str(id)
  {
    fields["id" := Str(id)]["hlcWallMs" := Int(clock.wall)]["hlcCounter" := Int(clock.counter)]
  }

  function Sequenced(fields: Payload, id: string, sequence: nat, clock: Clock): (p: Payload)
    ensures ClockOf(p) == clock && Get(p, "id") == Str(id) && SequenceOf(p) == sequence
  {
    Stamped(fields, id, clock)["deviceSequence" := Int(sequence)]
  }

  /** Everything but identifier, clock and sequence is as the caller gave it. */
  lemma StampedKeepsMembers(fields: Payload, id: string, sequence: nat, clock: Clock, key: string)
    requires key !in {"id", "hlcWallMs", "hlcCounter"}
    ensures At(Stamped(fields, id, clock), key) == At(fields, key)
    ensures key != "deviceSequence" ==> At(Sequenced(fields, id, sequence, clock), key) == At(fields, key)
  {
  }
}
