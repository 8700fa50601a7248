/** The pull loop between two peers, against a peer that keeps changing while it is pulled from. */
module Replication {
  import opened Prelude
  import opened RecordStorage

  ghost predicate Within(part: map<Ref, Record>, whole: map<Ref, Record>) {
    forall ref <- part :: ref in whole && whole[ref] == part[ref]
  }

  function DigestsOf(entries: seq<Record>): map<Ref, Record> {
    if entries == [] then map[]
    else
      var last := entries[|entries| - 1];
      DigestsOf(entries[..|entries| - 1])[last.ref := last]
  }

  /**
   * A page as the client checks it on receipt: short enough, each reference after the one before
   * and none twice.
   */
  method ValidateInventoryResult(entries: seq<Record>) returns (ok: bool)
    ensures ok <==> |entries| <= MAX_INVENTORY && Ascending(RefsOf(entries))
  {
    if |entries| > MAX_INVENTORY { return false; }
    var seen: set<Ref> := {};
    for i := 0 to |entries|
      invariant seen == set k | 0 <= k < i :: entries[k].ref
      invariant Ascending(RefsOf(entries[..i]))
    {
      var key := entries[i].ref;
      if i > 0 && (key in seen || !Before(entries[i - 1].ref, key)) {
        BreaksOrder(entries, i);
        return false;
      }
      forall k | 0 <= k < i ensures Before(entries[k].ref, key) {
        if k < i - 1 {
          assert Before(RefsOf(entries[..i])[k], RefsOf(entries[..i])[i - 1]);
          BeforeIsTransitive(entries[k].ref, entries[i - 1].ref, key);
        }
      }
      seen := seen + {key};
    }
    assert entries[..|entries|] == entries;
    ok := true;
  }

  lemma BreaksOrder(entries: seq<Record>, i: nat)
    requires 0 < i < |entries|
    requires !Before(entries[i - 1].ref, entries[i].ref) || exists k | 0 <= k < i :: entries[k].ref == entries[i].ref
    ensures !Ascending(RefsOf(entries))
  {
    var refs := RefsOf(entries);
    if Ascending(refs) {
      assert Before(refs[i - 1], refs[i]);
      var k :| 0 <= k < i && entries[k].ref == entries[i].ref;
      assert Before(refs[k], refs[i]);
      BeforeIsTotal(refs[k], refs[k]);
    }
  }

  /** The client's check of the next cursor. */
  predicate CursorAdvances(cursor: Option<Ref>, entries: seq<Record>, next: Option<Ref>) {
    next.Some? ==> next != cursor && entries != [] && next.value == entries[|entries| - 1].ref
  }

  class Exchange {
    const local: RecordStore
    const remote: RecordStore
    /** Everything either honest peer holds: no two payloads for one identifier. */
    ghost const universe: map<Ref, Record>

    constructor (local: RecordStore, remote: RecordStore)
      requires local != remote && local.Valid() && remote.Valid()
      requires local.conflict.None? && remote.conflict.None?
      requires forall ref <- local.records :: !Differs(remote.records, local.records[ref])
      requires SequencesOwned(local.records.Values + remote.records.Values)
      ensures Valid() && this.local == local && this.remote == remote
      ensures universe == local.records + remote.records
    {
      this.local, this.remote := local, remote;
      universe := local.records + remote.records;
    }

    ghost predicate Valid()
      reads this, local, remote
    {
      && local != remote && local.Valid() && remote.Valid()
      && local.conflict.None? && remote.conflict.None?
      && WellKeyed(universe) && SequencesOwned(universe.Values)
      && Within(local.records, universe) && Within(remote.records, universe)
      && universe.Keys == local.records.Keys + remote.records.Keys
    }

    /** While a request is under way the other peer may pull anything that is here. */
    method RemotePulls()
      requires Valid()
      modifies remote`records
      ensures Valid()
      ensures Within(old(remote.records), remote.records)
      ensures remote.records.Keys <= old(remote.records).Keys + local.records.Keys
    {
      var some := * ;
      if !(some <= local.records.Keys) { some := {}; }
      remote.records := remote.records + map ref | ref in some && ref !in remote.records :: local.records[ref];
      forall r | r in remote.records.Values ensures r in universe.Values {
        assert universe[r.ref] == r;
      }
      FewerAreOwned(remote.records.Values, universe.Values);
    }

    /** Fetch one batch of what a page advertised. The honest peer's answer passes every check. */
    method FetchRecords(wanted: seq<Record>) returns (changed: bool)
      requires Valid()
      requires 1 <= |wanted| <= MAX_OPERATION_REFS && Ascending(RefsOf(wanted))
      requires forall e <- wanted :: e.ref in remote.records && remote.records[e.ref] == e && e.ref !in local.records
      modifies local, remote`records
      ensures Valid() && changed
      ensures local.records.Keys == old(local.records).Keys + set e <- wanted :: e.ref
      ensures Within(old(remote.records), remote.records)
      ensures remote.records.Keys <= old(remote.records).Keys + local.records.Keys
    {
      RemotePulls();
      WantedIsHeld(wanted);
      var answer := remote.Operations(RefsOf(wanted));
      assert answer.value == wanted;
      changed := StoreBatch(answer.value, DigestsOf(wanted));
    }

    /** What the remote holds and was asked for is new here and goes in. */
    method StoreBatch(batch: seq<Record>, advertised: map<Ref, Record>) returns (changed: bool)
      requires Valid() && 1 <= |batch| <= MAX_OPERATION_REFS && Distinct(RefsOf(batch))
      requires advertised == DigestsOf(batch)
      requires forall e <- batch :: e.ref in remote.records && remote.records[e.ref] == e && e.ref !in local.records
      modifies local
      ensures Valid() && changed
      ensures local.records.Keys == old(local.records).Keys + set e <- batch :: e.ref
    {
      BatchIsAcceptable(batch);
      var result := local.InsertRemote(batch, advertised);
      MergedKeepsEverything(old(local.records), batch);
      assert batch[0] in batch;
      changed := result.changed;
    }

    lemma WantedIsHeld(wanted: seq<Record>)
      requires Ascending(RefsOf(wanted))
      requires forall e <- wanted :: e.ref in remote.records && remote.records[e.ref] == e
      ensures Distinct(RefsOf(wanted)) && forall ref <- RefsOf(wanted) :: ref in remote.records
      ensures forall i | 0 <= i < |wanted| :: remote.records[RefsOf(wanted)[i]] == wanted[i]
    {
      forall i, j | 0 <= i < j < |wanted| ensures RefsOf(wanted)[i] != RefsOf(wanted)[j] {
        BeforeIsTotal(RefsOf(wanted)[i], RefsOf(wanted)[j]);
      }
      forall i | 0 <= i < |wanted| ensures wanted[i] in wanted && RefsOf(wanted)[i] == wanted[i].ref {}
    }

    lemma BatchIsAcceptable(wanted: seq<Record>)
      requires Valid() && 1 <= |wanted| <= MAX_OPERATION_REFS
      requires forall e <- wanted :: e.ref in remote.records && remote.records[e.ref] == e && e.ref !in local.records
      ensures local.Deliverable(wanted, DigestsOf(wanted))
      ensures SequencesOwned(local.records.Values + SetOf(wanted))
    {
    }

    /** Pages and batches until a whole pass brings nothing new. */
    method PullUntilConverged()
      requires Valid()
      modifies local, remote`records
      ensures Valid()
      ensures local.records == universe
      ensures Within(old(local.records), local.records) && Within(old(remote.records), remote.records)
    {
      var changed := true;
      while changed
        invariant Valid()
        invariant Within(old(local.records), local.records) && Within(old(remote.records), remote.records)
        invariant !changed ==> remote.records.Keys <= local.records.Keys
        decreases universe.Keys - local.records.Keys, changed
      {
        changed := PullPass();
      }
      forall ref | ref in universe ensures ref in local.records && local.records[ref] == universe[ref] {}
    }

    /**
     * One pass of the cursor over the remote inventory. Nothing the remote held when the pass
     * began is skipped, whatever it inserts meanwhile.
     */
    method PullPass() returns (changed: bool)
      requires Valid()
      modifies local, remote`records
      ensures Valid()
      ensures old(remote.records).Keys <= local.records.Keys
      ensures remote.records.Keys <= local.records.Keys
      ensures Within(old(local.records), local.records) && Within(old(remote.records), remote.records)
      ensures changed <==> old(local.records).Keys < local.records.Keys
    {
      changed := false;
      var cursor: Option<Ref> := None;
      var more := true;
      ghost var start := remote.records.Keys;
      while more
        invariant Valid()
        invariant Within(old(local.records), local.records) && Within(old(remote.records), remote.records)
        invariant remote.records.Keys <= start + local.records.Keys
        invariant forall ref <- start :: !(more && Past(ref, cursor)) ==> ref in local.records
        invariant changed <==> old(local.records).Keys < local.records.Keys
        decreases more, set ref <- universe | Past(ref, cursor)
      {
        var next, any := PullPage(cursor);
        changed := changed || any;
        more := next.Some?;
        if more {
          forall ref | ref in universe && Past(ref, next) ensures Past(ref, cursor) {
            if cursor.Some? { BeforeIsTransitive(cursor.value, next.value, ref); }
          }
          BeforeIsTotal(next.value, next.value);
          ghost var ahead := set ref <- universe | Past(ref, cursor);
          assert next.value in ahead && !Past(next.value, next);
          cursor := next;
          assert (set ref <- universe | Past(ref, cursor)) < ahead;
        }
      }
    }

    /** One inventory page and every batch of it that is missing here. */
    method PullPage(cursor: Option<Ref>) returns (next: Option<Ref>, changed: bool)
      requires Valid()
      modifies local, remote`records
      ensures Valid()
      ensures Within(old(local.records), local.records) && Within(old(remote.records), remote.records)
      ensures remote.records.Keys <= old(remote.records).Keys + local.records.Keys
      ensures forall ref <- old(remote.records) :: Past(ref, cursor) && !(next.Some? && Past(ref, next)) ==>
                ref in local.records
      ensures next.Some? ==> next.value in universe && Past(next.value, cursor)
      ensures changed <==> old(local.records).Keys < local.records.Keys
    {
      RemotePulls();
      var entries;
      entries, next := remote.Page(cursor);
      assert next.Some? ==> entries[|entries| - 1] in entries;
      ghost var remoteAtPage := remote.records;
      var valid := ValidateInventoryResult(entries);
      assert valid && CursorAdvances(cursor, entries, next) by {
        if next.Some? { BeforeIsTotal(next.value, next.value); }
      }
      var missing, check := local.MissingReferences(entries);
      assert check.Agreed? by {
        forall e | e in entries ensures !Differs(local.records, e) {}
      }
      changed := FetchMissing(missing);
      forall ref | ref in old(remote.records) && Past(ref, cursor) && !(next.Some? && Past(ref, next))
        ensures ref in local.records
      {
        assert remoteAtPage[ref] in entries;
        assert remoteAtPage[ref] in missing || ref in old(local.records);
      }
    }

    method FetchMissing(missing: seq<Record>) returns (changed: bool)
      requires Valid() && Ascending(RefsOf(missing))
      requires forall e <- missing :: e.ref in remote.records && remote.records[e.ref] == e && e.ref !in local.records
      modifies local, remote`records
      ensures Valid()
      ensures Within(old(local.records), local.records) && Within(old(remote.records), remote.records)
      ensures remote.records.Keys <= old(remote.records).Keys + local.records.Keys
      ensures forall e <- missing :: e.ref in local.records
      ensures changed <==> missing != []
      ensures changed <==> old(local.records).Keys < local.records.Keys
    {
      changed := false;
      var start := 0;
      while start < |missing|
        invariant 0 <= start <= |missing|
        invariant Valid()
        invariant Within(old(local.records), local.records) && Within(old(remote.records), remote.records)
        invariant remote.records.Keys <= old(remote.records).Keys + local.records.Keys
        invariant forall k | 0 <= k < start :: missing[k].ref in local.records
        invariant forall k | start <= k < |missing| :: missing[k].ref !in local.records
        invariant changed <==> start > 0
        invariant start == 0 ==> local.records == old(local.records)
      {
        var stop := if start + MAX_OPERATION_REFS < |missing| then start + MAX_OPERATION_REFS else |missing|;
        LaterRefsDiffer(missing, start, stop);
        changed := FetchRecords(missing[start..stop]);
        start := stop;
      }
      if missing != [] { assert missing[0] in missing; }
    }

    /** A batch of an ascending page: which references it has, and which are left for later. */
    lemma LaterRefsDiffer(missing: seq<Record>, start: nat, stop: nat)
      requires start <= stop <= |missing| && Ascending(RefsOf(missing))
      ensures Ascending(RefsOf(missing[start..stop]))
      ensures forall e <- missing[start..stop] :: e in missing && exists k | start <= k < stop :: missing[k] == e
      ensures var fetched := set e <- missing[start..stop] :: e.ref;
              && (forall k | start <= k < stop :: missing[k].ref in fetched)
              && (forall k | stop <= k < |missing| :: missing[k].ref !in fetched)
    {
      forall k | start <= k < stop ensures missing[k].ref in set e <- missing[start..stop] :: e.ref {
        assert missing[start..stop][k - start] == missing[k];
      }
      forall i, j | start <= i < stop <= j < |missing| ensures missing[i].ref != missing[j].ref {
        assert Before(RefsOf(missing)[i], RefsOf(missing)[j]);
        BeforeIsTotal(missing[i].ref, missing[j].ref);
      }
      forall i, j | 0 <= i < j < stop - start
        ensures Before(RefsOf(missing[start..stop])[i], RefsOf(missing[start..stop])[j])
      {
        assert Before(RefsOf(missing)[start + i], RefsOf(missing)[start + j]);
      }
    }
  }
}
