/** Queueing with reserved clocks and sequences, and the atomic install of a sync response. */
module QueueDatabase {
  import opened Prelude
  import opened Json
  import opened QueueModel
  import opened Reconciliation
  import opened Preflight
  import opened CoreOutput
  import opened QueueTransitions

  class QueueDatabase {
    var tables: Tables
    const deviceId: string
    /** How Python prints an identifier that is not a string. */
    const show: Json -> string
    const readers: Readers
    /** `pendingSync`: the request whose answer is awaited, exactly as it was sent. */
    var claim: Option<map<Domain, Json>>
    ghost var history: History

    constructor (deviceId: string, show: Json -> string, readers: Readers)
      ensures Valid() && this.deviceId == deviceId && this.show == show && this.readers == readers
      ensures tables == Tables(Queues(map[], map[], map[], map[], map[]), map[], map[], Clock(0, 0), 0, None, 0)
      ensures claim.None? && history == History([], {}, {})
    {
      this.deviceId, this.show, this.readers := deviceId, show, readers;
      tables := Tables(Queues(map[], map[], map[], map[], map[]), map[], map[], Clock(0, 0), 0, None, 0);
      claim := None;
      history := History([], {}, {});
    }

    ghost predicate Valid()
      reads this`tables, this`history
    {
      Consistent(tables, history)
    }

    /** The tables are what committing this answer makes of `before`. */
    ghost predicate Committed(before: Tables, request: map<Domain, Json>, dropped: set<string>,
                              response: SyncResponse, now: nat)
      reads this`tables
    {
      Installed(before, tables, request, dropped, response, now, deviceId, readers)
    }

    ghost predicate ConsumedSince(before: Queues, request: map<Domain, Json>, response: SyncResponse,
                                  members: map<string, Json>)
      reads this`tables
    {
      Consumes(before, tables.queues, request, response, members)
    }

    /** `n` commands of a batch begun at `start` are queued. */
    ghost predicate InBatch(start: Tables, batch: seq<Draft>, now: nat, n: nat)
      requires n <= |batch|
      reads this`tables
    {
      BatchQueued(start, tables, batch[..n], now)
    }

    ghost predicate IssuedSince(h: History, count: nat)
      reads this`history
    {
      |history.issued| == |h.issued| + count && h.issued <= history.issued
    }

    // ----- Reservation -----

    /**
     * `hlc.tick.v1` of the opaque core: a strictly later clock whose wall time is the later of the
     * two walls, unless its counter is at its end.
     */
    method Tick(local: Clock, now: nat) returns (next: Option<Clock>)
      ensures next == if HasRoom(local, now, 1) then Some(NthClock(local, now, 0)) else None
    {
      if now > local.wall { return Some(Clock(now, 0)); }
      if local.counter >= MAX_SAFE_INTEGER { return None; }
      next := Some(Clock(local.wall, local.counter + 1));
    }

    method TickBatch(start: Clock, now: nat, count: nat) returns (clocks: Option<seq<Clock>>)
      ensures clocks.Some? <==> HasRoom(start, now, count)
      ensures clocks.Some? ==>
                |clocks.value| == count && forall i | 0 <= i < count :: clocks.value[i] == NthClock(start, now, i)
    {
      var local := start;
      var all: seq<Clock> := [];
      for i := 0 to count
        invariant |all| == i && forall k | 0 <= k < i :: all[k] == NthClock(start, now, k)
        invariant local == if i == 0 then start else NthClock(start, now, i - 1)
        invariant HasRoom(start, now, i)
      {
        var next := Tick(local, now);
        if next.None? { return None; }
        local := next.value;
        all := all + [local];
      }
      clocks := Some(all);
    }

    /** Sequences continue the persisted one; clocks start above the persisted clock. */
    method Reserve(now: nat, sequenceCount: nat, clockCount: nat)
      returns (reserved: Option<(seq<nat>, seq<Clock>)>)
      ensures reserved.Some? <==> Reservable(tables, now, sequenceCount, clockCount)
      ensures reserved.Some? ==>
                && |reserved.value.0| == sequenceCount && |reserved.value.1| == clockCount
                && (forall i | 0 <= i < sequenceCount :: reserved.value.0[i] == tables.deviceSequence + i + 1)
                && (forall i | 0 <= i < clockCount :: reserved.value.1[i] == NthClock(tables.hlc, now, i))
    {
      if tables.deviceSequence > MAX_SAFE_INTEGER { return None; }
      if sequenceCount > MAX_SAFE_INTEGER - tables.deviceSequence { return None; }
      if tables.hlc.wall > now + MAX_CLOCK_SKEW_MS { return None; }
      var base := tables.deviceSequence;
      var sequences := seq(sequenceCount, i requires 0 <= i < sequenceCount => base + i + 1);
      var clocks := TickBatch(tables.hlc, now, clockCount);
      if clocks.None? { return None; }
      reserved := Some((sequences, clocks.value));
    }

    // ----- Queueing -----

    /** A row with its reserved clock: row, proof, clock, and for a command its sequence. */
    method Persist(d: Domain, id: string, operation: Payload)
      requires Valid() && Persistable(tables, d, id, operation)
      modifies this`tables, this`history
      ensures Valid()
      ensures tables == Persisted(old(tables), d, id, operation,
                                  SamePhase(d, old(tables).queues.At(d), Get(operation, "phase")))
      ensures history == Recorded(old(history), d, id, operation)
    {
      PersistedStaysConsistent(tables, history, d, id, operation);
      tables := Persisted(tables, d, id, operation, SamePhase(d, tables.queues.At(d), Get(operation, "phase")));
      history := Recorded(history, d, id, operation);
    }

    /** A task, duration, auto-start or selection operation; `accepted` is the projection's verdict. */
    method QueueOperation(d: Domain, id: string, fields: Payload, now: nat, accepted: bool) returns (queued: bool)
      requires Valid() && d != Commands && Shaped(d, fields)
      modifies this`tables, this`history
      ensures Valid()
      ensures !queued ==> tables == old(tables) && history == old(history)
      ensures queued <==> accepted && id !in old(tables).queues.At(d) && Reservable(old(tables), now, 0, 1)
      ensures queued ==>
                var operation := Stamped(fields, id, NthClock(old(tables).hlc, now, 0));
                && tables == Persisted(old(tables), d, id, operation,
                                       SamePhase(d, old(tables).queues.At(d), Get(fields, "phase")))
                && history == Recorded(old(history), d, id, operation)
    {
      var reserved := Reserve(now, 0, 1);
      if reserved.None? || !accepted || id in tables.queues.At(d) { return false; }
      var clock := reserved.value.1[0];
      assert Later(clock, tables.hlc);
      assert Get(Stamped(fields, id, clock), "phase") == Get(fields, "phase");
      StampedIsShaped(d, fields, id, clock);
      Persist(d, id, Stamped(fields, id, clock));
      queued := true;
    }

    /**
     * Timer commands in one transaction, all or none, each with the next sequence and clock.
     */
    method QueueCommands(batch: seq<Draft>, now: nat, accepted: bool) returns (queued: bool)
      requires Valid() && MayWait(batch, tables)
      requires forall i | 0 <= i < |batch| :: Shaped(Commands, batch[i].fields)
      modifies this`tables, this`history
      ensures Valid()
      ensures queued <==> accepted && AreFree(batch, old(tables)) && Reservable(old(tables), now, |batch|, |batch|)
      ensures !queued ==> tables == old(tables) && history == old(history)
      ensures queued ==> InBatch(old(tables), batch, now, |batch|) && IssuedSince(old(history), |batch|)
    {
      var reserved := Reserve(now, |batch|, |batch|);
      if reserved.None? || !accepted { return false; }
      var saved := tables;
      ghost var savedHistory := history;
      var (sequences, clocks) := reserved.value;
      EmptyBatchIsQueued(saved, now);
      assert batch[..0] == [];
      for i := 0 to |batch|
        invariant Valid() && InBatch(saved, batch, now, i) && AreFree(batch[..i], saved)
        invariant IssuedSince(savedHistory, i)
      {
        var free := IsFree(batch, i, now, saved);
        if !free {
          tables, history := saved, savedHistory;
          return false;
        }
        QueueNext(batch, i, now, sequences[i], clocks[i], saved, savedHistory);
      }
      AllTaken(batch);
      queued := true;
    }

    /** The next identifier of a batch is neither pending nor an earlier one's. */
    method IsFree(batch: seq<Draft>, i: nat, now: nat, ghost start: Tables) returns (free: bool)
      requires i < |batch| && AreFree(batch[..i], start) && MayWait(batch, start)
      requires InBatch(start, batch, now, i)
      ensures free <==> batch[i].id !in tables.queues.commands
      ensures free <==> AreFree(batch[..i + 1], start)
      ensures AreFree(batch, start) ==> free
      ensures tables.deviceSequence == start.deviceSequence + i && Later(NthClock(start.hlc, now, i), tables.hlc)
      ensures batch[i].dependsOn.Some? ==> batch[i].dependsOn.value in tables.queues.commands
    {
      NextMayBeQueued(start, tables, batch, now, i);
      OneMoreFree(batch, start, i);
      FreeSoFar(batch, start, i + 1);
      free := batch[i].id !in tables.queues.commands;
    }

    /** The command as it is stored. */
    method Prepared(draft: Draft, i: nat, now: nat, sequence: nat, clock: Clock, ghost start: Tables)
      returns (command: Payload)
      requires Shaped(Commands, draft.fields)
      requires sequence == start.deviceSequence + i + 1 && clock == NthClock(start.hlc, now, i)
      ensures command == NthCommand(start, draft, now, i)
      ensures Shaped(Commands, command) && Get(command, "id") == Str(draft.id)
      ensures SequenceOf(command) == sequence && ClockOf(command) == clock
    {
      NthIsReady(start, draft, now, i);
      command := Sequenced(draft.fields, draft.id, sequence, clock);
    }

    /** The next command of a batch. */
    method QueueNext(batch: seq<Draft>, i: nat, now: nat, sequence: nat, clock: Clock,
                     ghost start: Tables, ghost first: History)
      requires Valid() && i < |batch| && Shaped(Commands, batch[i].fields)
      requires WellFormed(start) && InBatch(start, batch, now, i) && IssuedSince(first, i)
      requires AreFree(batch[..i + 1], start) && batch[i].id !in tables.queues.commands
      requires sequence == start.deviceSequence + i + 1 && clock == NthClock(start.hlc, now, i)
      requires sequence > tables.deviceSequence && Later(clock, tables.hlc)
      requires batch[i].dependsOn.Some? ==> batch[i].dependsOn.value in tables.queues.commands
      modifies this`tables, this`history
      ensures Valid() && InBatch(start, batch, now, i + 1) && IssuedSince(first, i + 1)
    {
      var command := Prepared(batch[i], i, now, sequence, clock, start);
      ghost var before := tables;
      NextIsFree(batch, start, i);
      BatchGrows(start, before, batch, now, i);
      QueueCommand(batch[i].id, command, batch[i].dependsOn);
    }

    method QueueCommand(id: string, command: Payload, dependsOn: Option<string>)
      requires Valid() && Persistable(tables, Commands, id, command)
      requires dependsOn.Some? ==> dependsOn.value in tables.queues.commands
      modifies this`tables, this`history
      ensures Valid()
      ensures tables == CommandAdded(old(tables), id, command, dependsOn)
      ensures history == Recorded(old(history), Commands, id, command)
    {
      PersistedCommand(tables, id, command);
      Persist(Commands, id, command);
      if dependsOn.Some? {
        ParentStaysConsistent(tables, history, id, dependsOn.value);
        tables := tables.(parents := tables.parents[id := dependsOn.value]);
      }
    }

    /** The outgoing payload is persisted: what it carries is no longer known to be unsent. */
    method RetireProof(d: Domain, ids: set<string>)
      requires Valid()
      modifies this`tables, this`history
      ensures Valid() && ProofAt(tables, d) == ProofAt(old(tables), d) - ids
      ensures forall e: Domain | e != d :: ProofAt(tables, e) == ProofAt(old(tables), e)
      ensures tables == old(tables).(proof := tables.proof)
      ensures history == old(history).(sent := old(history).sent + set id <- ids :: (d, id))
    {
      RetiringStaysConsistent(tables, history, d, ids);
      tables := ProofRetired(tables, d, ids);
      history := SentToo(history, d, ids);
    }

    /**
     * `sync_payload`: a saved claim is sent again as it is; otherwise, if every row passes, those the
     * planner selected become the claim and lose their proof. Without a plan they are sent without being claimed.
     */
    method ClaimSync(selected: Selection, planned: bool) returns (request: Option<map<Domain, Json>>)
      requires Valid()
      modifies this
      ensures Valid() && tables == old(tables).(proof := tables.proof)
      ensures old(claim).Some? ==> request == old(claim)
      ensures old(claim).Some? || request.None? || !planned ==>
                tables == old(tables) && claim == old(claim) && history == old(history)
      ensures old(claim).None? ==>
                (request.Some? <==>
                   Preflighted(old(tables), deviceId, readers) && Selectable(tables.queues, selected))
                && (request.Some? ==> request.value == PayloadOf(tables.queues, selected))
      ensures old(claim).None? && request.Some? && planned ==>
                && claim == request
                && forall d: Domain :: Retired(old(tables), tables, history, selected, d)
    {
      if claim.Some? { return claim; }
      var passes := Preflight();
      if !passes { return None; }
      var selectable := CheckSelection(selected);
      if !selectable { return None; }
      request := Some(PayloadOf(tables.queues, selected));
      if !planned { return; }
      claim := request;
      RetireSelection(selected);
    }

    method Preflight() returns (passes: bool)
      ensures passes <==> Preflighted(tables, deviceId, readers)
    {
      if deviceId == "" || tables.deviceSequence > MAX_SAFE_INTEGER { return false; }
      if tables.hlc.wall > MAX_SAFE_INTEGER || tables.hlc.counter > MAX_SAFE_INTEGER { return false; }
      if tables.hlc.wall == 0 && tables.hlc.counter != 0 { return false; }
      passes := CheckQueues(tables.queues, deviceId, readers);
    }

    method RetireSelection(selected: Selection)
      requires Valid()
      modifies this`tables, this`history
      ensures Valid() && tables == old(tables).(proof := tables.proof)
      ensures forall d: Domain :: Retired(old(tables), tables, history, selected, d)
    {
      ghost var start := tables;
      for i := 0 to |DOMAINS|
        invariant Valid() && tables == start.(proof := tables.proof)
        invariant forall k | 0 <= k < i :: Retired(start, tables, history, selected, DOMAINS[k])
        invariant forall k | i <= k < |DOMAINS| :: ProofAt(tables, DOMAINS[k]) == ProofAt(start, DOMAINS[k])
      {
        assert forall k | i < k < |DOMAINS| :: DOMAINS[k] != DOMAINS[i];
        assert forall k | 0 <= k < i :: DOMAINS[k] != DOMAINS[i];
        RetireProof(DOMAINS[i], SelectedIds(selected, DOMAINS[i]));
      }
      forall d: Domain ensures Retired(start, tables, history, selected, d) { EveryDomain(d); }
    }

    method CheckSelection(selected: Selection) returns (ok: bool)
      ensures ok <==> Selectable(tables.queues, selected)
    {
      for i := 0 to |DOMAINS|
        invariant forall k | 0 <= k < i :: SelectedIds(selected, DOMAINS[k]) <= tables.queues.At(DOMAINS[k]).Keys
      {
        if !(SelectedIds(selected, DOMAINS[i]) <= tables.queues.At(DOMAINS[i]).Keys) {
          assert !Selectable(tables.queues, selected);
          return false;
        }
      }
      ok := true;
      forall d: Domain ensures SelectedIds(selected, d) <= tables.queues.At(d).Keys { EveryDomain(d); }
    }

    /**
     * What of a domain is replayed on the canonical state: all of it when every operation is
     * provably unsent and later than the canonical head, else nothing.
     */
    method SafeDomainQueue(d: Domain) returns (safe: Queue)
      requires Valid()
      ensures safe in {tables.queues.At(d), map[]}
      ensures safe == tables.queues.At(d) <==>
                (tables.queues.At(d) == map[] || tables.head.None? ||
                 forall id <- tables.queues.At(d) ::
                   id in ProofAt(tables, d) && Later(ClockOf(tables.queues.At(d)[id]), tables.head.value))
      // Nothing the user queued since the last install is hidden before it is sent.
      ensures (forall id <- tables.queues.At(d) :: (d, id) in history.recent && (d, id) !in history.sent) ==>
                safe == tables.queues.At(d)
    {
      var queue := tables.queues.At(d);
      if tables.head.None? { return queue; }
      var rest := queue.Keys;
      while rest != {}
        invariant rest <= queue.Keys
        invariant forall id <- queue.Keys - rest ::
                    id in ProofAt(tables, d) && Later(ClockOf(queue[id]), tables.head.value)
        decreases rest
      {
        var id :| id in rest;
        if id !in ProofAt(tables, d) || !Later(ClockOf(queue[id]), tables.head.value) {
          assert !((d, id) in history.recent && (d, id) !in history.sent);
          return map[];
        }
        rest := rest - {id};
      }
      safe := queue;
    }

    // ----- Install -----

    method ValidateResponse(request: map<Domain, Json>, response: SyncResponse) returns (ok: bool)
      ensures ok <==> AcknowledgesAll(request, response)
    {
      for i := 0 to |DOMAINS|
        invariant forall k | 0 <= k < i :: Acknowledges(request, response, DOMAINS[k])
      {
        var d := DOMAINS[i];
        var acknowledged :=
          ValidateAcknowledgements(RequestList(request, d), ResponseList(response, d), AcknowledgementIdKey(d));
        if acknowledged.None? {
          assert !Acknowledges(request, response, d);
          return false;
        }
      }
      ok := true;
      forall d: Domain ensures Acknowledges(request, response, d) { EveryDomain(d); }
    }

    /** Acknowledged and dropped rows are deleted; a kept row is rewritten only if it differs. */
    method PersistQueue(originals: Queue, retained: Queue) returns (rows: Queue)
      requires retained.Keys <= originals.Keys
      ensures rows == Kept(originals, retained)
    {
      rows := originals;
      var rest := originals.Keys;
      while rest != {}
        invariant rest <= originals.Keys
        invariant forall id <- rest :: id in rows && rows[id] == originals[id]
        invariant rows.Keys == rest + retained.Keys
        invariant forall id <- retained.Keys - rest :: rows[id] == KeptRow(originals, id, retained[id])
        decreases rest
      {
        var id :| id in rest;
        if id !in retained {
          rows := rows - {id};
        } else if !Equal(Obj(retained[id]), Obj(originals[id])) {
          rows := rows[id := retained[id]];
        }
        rest := rest - {id};
      }
    }

    method PersistQueues(retained: Queues)
      requires forall d: Domain :: retained.At(d).Keys <= tables.queues.At(d).Keys
      modifies this`tables
      ensures tables == old(tables).(queues := tables.queues)
      ensures KeepsRows(old(tables).queues, retained, tables.queues)
    {
      ghost var start := tables;
      for i := 0 to |DOMAINS|
        invariant tables == start.(queues := tables.queues)
        invariant forall d: Domain | d in DOMAINS[..i] ::
                    tables.queues.At(d) == Kept(start.queues.At(d), retained.At(d))
        invariant forall d: Domain | d !in DOMAINS[..i] :: tables.queues.At(d) == start.queues.At(d)
      {
        var d := DOMAINS[i];
        assert d !in DOMAINS[..i];
        var rows := PersistQueue(tables.queues.At(d), retained.At(d));
        tables := tables.(queues := tables.queues.With(d, rows));
        OneMore(DOMAINS, i);
      }
      AllTaken(DOMAINS);
      forall d: Domain ensures tables.queues.At(d) == Kept(start.queues.At(d), retained.At(d)) { EveryDomain(d); }
    }

    /** Proof of the rows that are gone is gone too. */
    method DropConsumedProof(before: Queues)
      modifies this`tables
      ensures tables == old(tables).(proof := tables.proof)
      ensures forall d: Domain ::
                ProofAt(tables, d) == ProofAt(old(tables), d) - (before.At(d).Keys - tables.queues.At(d).Keys)
    {
      ghost var start := tables;
      for i := 0 to |DOMAINS|
        invariant tables == start.(proof := tables.proof)
        invariant forall k | 0 <= k < i ::
                    ProofAt(tables, DOMAINS[k]) ==
                    ProofAt(start, DOMAINS[k]) - (before.At(DOMAINS[k]).Keys - start.queues.At(DOMAINS[k]).Keys)
        invariant forall d: Domain | d !in DOMAINS[..i] :: ProofAt(tables, d) == ProofAt(start, d)
      {
        var d := DOMAINS[i];
        assert d !in DOMAINS[..i];
        var consumed := before.At(d).Keys - tables.queues.At(d).Keys;
        tables := tables.(proof := tables.proof[d := ProofAt(tables, d) - consumed]);
        OneMore(DOMAINS, i);
      }
      forall d: Domain
        ensures ProofAt(tables, d) == ProofAt(start, d) - (before.At(d).Keys - start.queues.At(d).Keys)
      {
        EveryDomain(d);
      }
    }

    /** The latest clock of one queue with a positive wall, if it beats `best`. */
    method LatestIn(queue: Queue, best: Clock) returns (latest: Clock)
      ensures AtLeast(latest, best) && Covered(queue, latest)
      ensures latest == best || IsRowClock(queue, latest)
    {
      latest := best;
      var rest := queue.Keys;
      while rest != {}
        invariant rest <= queue.Keys
        invariant AtLeast(latest, best)
        invariant forall id <- queue.Keys - rest | ClockOf(queue[id]).wall > 0 :: AtLeast(latest, ClockOf(queue[id]))
        invariant latest == best || IsRowClock(queue, latest)
        decreases rest
      {
        var id :| id in rest;
        var clock := ClockOf(queue[id]);
        if clock.wall > 0 && Later(clock, latest) { latest := clock; }
        rest := rest - {id};
      }
    }

    method LatestRetained() returns (retained: Clock)
      ensures QueuesCovered(tables.queues, retained)
      ensures retained == Clock(0, 0) || IsQueuedClock(tables.queues, retained)
    {
      retained := Clock(0, 0);
      for i := 0 to |DOMAINS|
        invariant forall d: Domain | d in DOMAINS[..i] :: Covered(tables.queues.At(d), retained)
        invariant retained == Clock(0, 0) || IsQueuedClock(tables.queues, retained)
      {
        var queue, earlier := tables.queues.At(DOMAINS[i]), retained;
        retained := LatestIn(queue, retained);
        forall d: Domain | d in DOMAINS[..i] ensures Covered(tables.queues.At(d), retained) {
          CoverGrows(tables.queues.At(d), earlier, retained);
        }
        OneMore(DOMAINS, i);
      }
      AllTaken(DOMAINS);
      forall d: Domain ensures Covered(tables.queues.At(d), retained) { EveryDomain(d); }
    }

    /** The clock an install persists; refuses retained work beyond the trusted time. */
    method MergedInstallClock(server: Clock, now: nat) returns (merged: Option<Clock>)
      requires server.wall > 0
      ensures merged.Some? <==> TrustedQueues(tables.queues, now)
      ensures merged.Some? ==> Merges(tables, server, now, merged.value)
    {
      var retained := LatestRetained();
      LatestDecidesTrust(tables.queues, retained, now);
      if retained.wall > now + MAX_CLOCK_SKEW_MS { return None; }
      var latest := MaxClock(server, retained);
      forall d: Domain ensures Covered(tables.queues.At(d), latest) {
        CoverGrows(tables.queues.At(d), retained, latest);
      }
      if 0 < tables.hlc.wall <= now + MAX_CLOCK_SKEW_MS { latest := MaxClock(latest, tables.hlc); }
      merged := Some(latest);
    }

    /**
     * Installs the server's answer to the claimed request, or changes nothing. `output` is what the
     * core answered, if it answered; `replayed` is the projection it gave for the safe queues on the
     * canonical state, if it gave one.
     */
    method ApplySync(request: map<Domain, Json>, response: SyncResponse, output: Option<Json>, now: nat,
                     replayed: Option<Projection>) returns (committed: bool)
      requires Valid()
      modifies this
      ensures Valid()
      ensures committed <==>
                && old(claim).Some? && SameRequest(old(claim).value, request) && output.Some?
                && Installable(old(tables), request, response, output.value, now, deviceId, show, readers)
                && Replays(replayed, ProjectionOf(output.value.members))
      ensures !committed ==> tables == old(tables) && claim == old(claim) && history == old(history)
      ensures committed ==>
                && Committed(old(tables), request, Dropped(output.value.members), response, now)
                && KeepsAnswer(old(tables).queues, output.value.members, tables.queues, deviceId, show)
                && ConsumedSince(old(tables).queues, request, response, output.value.members)
                && claim.None? && history == old(history).(recent := {})
    {
      if claim.None? || !SameRequest(claim.value, request) || output.None? { return false; }
      committed := Reconcile(request, response, output.value, now, replayed);
      if committed { claim := None; }
    }

    /** Validation, rewriting and install in the same transaction. */
    method Reconcile(request: map<Domain, Json>, response: SyncResponse, output: Json, now: nat,
                     replayed: Option<Projection>)
      returns (committed: bool)
      requires Valid()
      modifies this`tables, this`history
      ensures Valid()
      ensures committed <==>
                && Installable(old(tables), request, response, output, now, deviceId, show, readers)
                && Replays(replayed, ProjectionOf(output.members))
      ensures !committed ==> tables == old(tables) && history == old(history)
      ensures committed ==>
                && Committed(old(tables), request, Dropped(output.members), response, now)
                && KeepsAnswer(old(tables).queues, output.members, tables.queues, deviceId, show)
                && ConsumedSince(old(tables).queues, request, response, output.members)
                && history == old(history).(recent := {})
    {
      var accepted := ValidateSync(request, response, output);
      if accepted.None? { return false; }
      AnswerStaysAlike(tables.queues, accepted.value.queues, output.members, now, deviceId, show, readers);
      ghost var before := tables;
      committed := Install(accepted.value, request, response, now, ProjectionOf(output.members), replayed);
      if committed { CommitConsumes(before, tables, request, response, output.members); }
    }

    method ValidateSync(request: map<Domain, Json>, response: SyncResponse, output: Json)
      returns (accepted: Option<Accepted>)
      requires Valid()
      ensures accepted.Some? == Verified(tables, request, response, output, deviceId, show, readers)
      ensures accepted.Some? ==>
                && AcceptedOutput(tables, Sent(request), accepted.value)
                && Answered(output.members, accepted.value.queues, deviceId, show)
                && accepted.value.dropped == Dropped(output.members)
    {
      var acknowledged := ValidateResponse(request, response);
      if !acknowledged || response.revision < tables.revision { return None; }
      var scalars := ValidateScalars(response);
      if !scalars { return None; }
      var passes := Preflight();
      if !passes { return None; }
      accepted := ValidateOutput(output, tables, Sent(request), response, deviceId, show);
    }

    /** The writes of one install; all of them are rolled back when it refuses. */
    method Install(accepted: Accepted, request: map<Domain, Json>, response: SyncResponse, now: nat,
                   announced: Projection, replayed: Option<Projection>)
      returns (committed: bool)
      requires Valid() && Preflighted(tables, deviceId, readers)
      requires ValidScalars(response) && response.revision >= tables.revision
      requires AcceptedOutput(tables, Sent(request), accepted)
      modifies this`tables, this`history
      ensures Valid()
      ensures committed ==
                (&& Replays(replayed, announced)
                 && QueuesStay(old(tables).queues, accepted.queues, now, deviceId, readers))
      ensures !committed ==> tables == old(tables) && history == old(history)
      ensures committed ==>
                && Committed(old(tables), request, accepted.dropped, response, now)
                && KeepsRows(old(tables).queues, accepted.queues, tables.queues)
                && history == old(history).(recent := {})
    {
      var saved := tables;
      PersistReconciliation(accepted, Sent(request));
      ghost var persisted := tables;
      KeptRowsStay(saved.queues, accepted.queues, tables.queues, now, deviceId, readers);
      var passes := CheckQueues(tables.queues, deviceId, readers);
      var merged := MergedInstallClock(response.serverClock, now);
      var same := CompareProjection(replayed, announced);
      if !passes || merged.None? || !same {
        tables := saved;
        return false;
      }
      tables := WithHead(tables, merged.value, response);
      InstallIsSound(saved, persisted, history, request, accepted, response, merged.value, now, deviceId, readers);
      history := history.(recent := {});
      committed := true;
    }

    method PersistReconciliation(accepted: Accepted, acknowledged: Acknowledged)
      requires WellFormed(tables) && Covers(acknowledged) && AcceptedOutput(tables, acknowledged, accepted)
      modifies this`tables
      ensures tables == old(tables).(queues := tables.queues, parents := accepted.parents, proof := tables.proof)
      ensures KeepsRows(old(tables).queues, accepted.queues, tables.queues)
      ensures ProofKept(old(tables), tables)
    {
      var before := tables;
      forall d: Domain ensures accepted.queues.At(d).Keys <= tables.queues.At(d).Keys {
        assert AcceptedQueue(d, tables.queues.At(d), accepted.queues.At(d), acknowledged[d], accepted.dropped);
      }
      PersistQueues(accepted.queues);
      DropConsumedProof(before.queues);
      tables := tables.(parents := accepted.parents);
      forall d: Domain ensures ProofAt(tables, d) == ProofAt(before, d) * tables.queues.At(d).Keys {
        assert DomainFormed(before, d);
      }
    }
  }
}
