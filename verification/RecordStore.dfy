/** `IrohRecordPersistence`: one room's immutable records, their inventory and the conflict latch. */
module RecordStorage {
  import opened Prelude
  import Order

  const MAX_OPERATION_REFS := 255
  const MAX_INVENTORY := 1024

  /** Domain and operation identifier, as the bytes SQLite compares. */
  datatype Ref = Ref(domain: seq<nat>, id: seq<nat>)

  /** `sequence` is present exactly on timer operations. A record stands for its own digest. */
  datatype Record = Record(ref: Ref, device: nat, sequence: Option<nat>, payload: nat)

  predicate Before(a: Ref, b: Ref) {
    Order.Less(a.domain, b.domain) || (a.domain == b.domain && Order.Less(a.id, b.id))
  }

  /** By domain, then identifier, each by its first difference. */
  lemma BeforeMeans(a: Ref, b: Ref)
    ensures Before(a, b) <==> Order.Precedes(a.domain, b.domain) || (a.domain == b.domain && Order.Precedes(a.id, b.id))
  {
    Order.LessMeans(a.domain, b.domain);
    Order.LessMeans(a.id, b.id);
  }

  lemma BeforeIsTotal(a: Ref, b: Ref)
    ensures Before(a, b) || a == b || Before(b, a)
    ensures !(Before(a, b) && Before(b, a)) && !Before(a, a)
  {
    Order.Total(a.domain, b.domain);
    Order.Total(a.id, b.id);
    Order.Irreflexive(a.domain);
    Order.Irreflexive(a.id);
    if Before(a, b) && Before(b, a) {
      BeforeIsTransitive(a, b, a);
      Order.Irreflexive(a.domain);
      Order.Irreflexive(a.id);
    }
  }

  lemma BeforeIsTransitive(a: Ref, b: Ref, c: Ref)
    requires Before(a, b) && Before(b, c)
    ensures Before(a, c)
  {
    if Order.Less(a.domain, b.domain) && Order.Less(b.domain, c.domain) {
      Order.Transitive(a.domain, b.domain, c.domain);
    } else if a.domain == b.domain == c.domain {
      Order.Transitive(a.id, b.id, c.id);
    }
  }

  predicate Past(r: Ref, cursor: Option<Ref>) {
    cursor.None? || Before(cursor.value, r)
  }

  ghost predicate Ascending(refs: seq<Ref>) {
    forall i, j | 0 <= i < j < |refs| :: Before(refs[i], refs[j])
  }

  /** Timer operations of one device never share a sequence number. */
  predicate SequencesOwned(records: set<Record>) {
    forall r <- records, s <- records {:trigger SharesSequence(r, s)} :: SharesSequence(r, s) ==> r.ref == s.ref
  }

  predicate SharesSequence(r: Record, s: Record) {
    r.sequence.Some? && r.sequence == s.sequence && r.device == s.device
  }

  lemma FewerAreOwned(some: set<Record>, all: set<Record>)
    requires some <= all && SequencesOwned(all)
    ensures SequencesOwned(some)
  {
  }

  predicate WellKeyed(records: map<Ref, Record>) {
    forall ref <- records :: records[ref].ref == ref
  }

  function RefsOf(batch: seq<Record>): (refs: seq<Ref>)
    ensures |refs| == |batch| && forall i | 0 <= i < |batch| :: refs[i] == batch[i].ref
  {
    seq(|batch|, i requires 0 <= i < |batch| => batch[i].ref)
  }

  ghost predicate Distinct<T(!new)>(s: seq<T>) {
    forall i, j | 0 <= i < j < |s| :: s[i] != s[j]
  }

  predicate Differs(records: map<Ref, Record>, r: Record) {
    r.ref in records && records[r.ref] != r
  }

  /** Stored records win: an insert never replaces one. */
  function Merged(records: map<Ref, Record>, batch: seq<Record>): map<Ref, Record> {
    if batch == [] then records
    else
      var r := batch[|batch| - 1];
      var before := Merged(records, batch[..|batch| - 1]);
      if r.ref in before then before else before[r.ref := r]
  }

  lemma {:induction false} MergedKeepsEverything(records: map<Ref, Record>, batch: seq<Record>)
    ensures var all := Merged(records, batch);
            && records.Keys <= all.Keys
            && (forall ref <- records :: all[ref] == records[ref])
            && (forall r <- batch :: r.ref in all)
            && (forall ref <- all :: ref in records || exists r <- batch :: r.ref == ref && all[ref] == r)
            && (WellKeyed(records) ==> WellKeyed(all))
  {
    if batch != [] {
      var front := batch[..|batch| - 1];
      MergedKeepsEverything(records, front);
      var all := Merged(records, batch);
      forall r | r in batch ensures r.ref in all {
        assert r in front || r == batch[|batch| - 1];
      }
      forall ref | ref in all && ref !in records ensures exists r <- batch :: r.ref == ref && all[ref] == r {
        if ref in Merged(records, front) {
          var r :| r in front && r.ref == ref && Merged(records, front)[ref] == r;
          assert r in batch;
        } else {
          assert batch[|batch| - 1] in batch;
        }
      }
    }
  }

  lemma MergedStaysOwned(records: map<Ref, Record>, batch: seq<Record>)
    requires WellKeyed(records) && SequencesOwned(records.Values + SetOf(batch))
    ensures var all := Merged(records, batch);
            && WellKeyed(all) && SequencesOwned(all.Values)
            && (all.Keys != records.Keys <==> exists r <- batch :: r.ref !in records)
  {
    MergedKeepsEverything(records, batch);
    var all := Merged(records, batch);
    forall r | r in all.Values ensures r in records.Values + SetOf(batch) {
      var ref :| ref in all && all[ref] == r;
    }
  }

  datatype PageCheck = Agreed | Differing | TooLong

  datatype InsertResult = Inserted(changed: bool) | Refused | Conflict

  class RecordStore {
    var records: map<Ref, Record>
    /** Once set, the room needs repair and takes no more records. */
    var conflict: Option<Ref>

    constructor (records: map<Ref, Record>)
      requires WellKeyed(records) && SequencesOwned(records.Values)
      ensures Valid() && this.records == records && conflict == None
    {
      this.records := records;
      conflict := None;
    }

    ghost predicate Valid()
      reads this
    {
      WellKeyed(records) && SequencesOwned(records.Values)
    }

    /**
     * Insert a fetched batch that must be exactly what was advertised. Whatever the outcome, no
     * stored record changes; a payload that differs from a stored one latches the conflict.
     */
    method InsertRemote(batch: seq<Record>, advertised: map<Ref, Record>) returns (result: InsertResult)
      requires Valid()
      modifies this
      ensures Valid()
      ensures result.Inserted? ==>
                && conflict == old(conflict) == None
                && records == Merged(old(records), batch)
                && (result.changed <==> exists r <- batch :: r.ref !in old(records))
      ensures !result.Inserted? ==> records == old(records)
      ensures result.Conflict? <==>
                && Deliverable(batch, advertised)
                && (old(conflict).Some? ||
                    (Distinct(RefsOf(batch)) && exists r <- batch :: Differs(old(records), r)))
      ensures result.Conflict? ==> conflict.Some?
      ensures !result.Conflict? ==> conflict == old(conflict)
      ensures (&& Deliverable(batch, advertised) && Distinct(RefsOf(batch)) && old(conflict).None?
               && SequencesOwned(old(records).Values + SetOf(batch))
               && (forall r <- batch :: !Differs(old(records), r))) ==> result.Inserted?
    {
      if batch == [] || Advertised(batch) != advertised || |batch| > MAX_OPERATION_REFS { return Refused; }
      if conflict.Some? { return Conflict; }
      var distinct := CheckDistinct(batch);
      if !distinct { return Refused; }
      var differing := FindConflict(batch);
      if differing.Some? {
        conflict := differing;
        return Conflict;
      }
      var owned := CheckSequences(batch);
      if !owned { return Refused; }
      var changed := InsertPrepared(batch);
      result := Inserted(changed);
    }

    ghost predicate Deliverable(batch: seq<Record>, advertised: map<Ref, Record>) {
      batch != [] && Advertised(batch) == advertised && |batch| <= MAX_OPERATION_REFS
    }

    function Advertised(batch: seq<Record>): map<Ref, Record> {
      if batch == [] then map[] else Advertised(batch[..|batch| - 1])[batch[|batch| - 1].ref := batch[|batch| - 1]]
    }

    method CheckDistinct(batch: seq<Record>) returns (distinct: bool)
      ensures distinct <==> Distinct(RefsOf(batch))
    {
      var keys: set<Ref> := {};
      for i := 0 to |batch|
        invariant keys == set k | 0 <= k < i :: batch[k].ref
        invariant Distinct(RefsOf(batch[..i]))
      {
        if batch[i].ref in keys {
          ghost var k :| 0 <= k < i && batch[k].ref == batch[i].ref;
          assert RefsOf(batch)[k] == RefsOf(batch)[i];
          return false;
        }
        keys := keys + {batch[i].ref};
      }
      assert batch[..|batch|] == batch;
      distinct := true;
    }

    method FindConflict(batch: seq<Record>) returns (found: Option<Ref>)
      ensures found.Some? <==> exists r <- batch :: Differs(records, r)
    {
      for i := 0 to |batch|
        invariant forall k | 0 <= k < i :: !Differs(records, batch[k])
      {
        if Differs(records, batch[i]) { return Some(batch[i].ref); }
      }
      found := None;
    }

    /** One pass over what is stored, then one over the batch. */
    method CheckSequences(batch: seq<Record>) returns (owned: bool)
      requires Valid()
      ensures owned <==> SequencesOwned(records.Values + SetOf(batch))
    {
      var owners := StoredOwners();
      assert batch[..0] == [] && records.Values + SetOf([]) == records.Values;
      for i := 0 to |batch|
        invariant SequencesOwned(records.Values + SetOf(batch[..i]))
        invariant Owns(owners, records.Values + SetOf(batch[..i]))
      {
        var r := batch[i];
        var key := (r.device, r.sequence);
        SetOfExtends(batch, i);
        assert records.Values + SetOf(batch[..i + 1]) == (records.Values + SetOf(batch[..i])) + {r};
        if r.sequence.Some? && key in owners && owners[key] != r.ref {
          NotOwned(owners, records.Values + SetOf(batch[..i]), r);
          assert SetOf(batch[..i]) <= SetOf(batch) && r in SetOf(batch);
          return false;
        }
        OwnsExtends(owners, records.Values + SetOf(batch[..i]), r);
        if r.sequence.Some? { owners := owners[key := r.ref]; }
      }
      assert batch[..|batch|] == batch;
      owned := true;
    }

    method StoredOwners() returns (owners: map<(nat, Option<nat>), Ref>)
      requires Valid()
      ensures Owns(owners, records.Values)
    {
      owners := map[];
      var rows, done := records.Values, {};
      while rows != {}
        invariant rows + done == records.Values
        invariant Owns(owners, done)
        decreases rows
      {
        var row :| row in rows;
        assert SequencesOwned(done + {row});
        if row.sequence.Some? { OwnedKey(owners, done, row); }
        OwnsExtends(owners, done, row);
        if row.sequence.Some? { owners := owners[(row.device, row.sequence) := row.ref]; }
        rows, done := rows - {row}, done + {row};
      }
    }

    method InsertPrepared(batch: seq<Record>) returns (changed: bool)
      requires Valid() && SequencesOwned(records.Values + SetOf(batch))
      modifies `records
      ensures Valid() && records == Merged(old(records), batch)
      ensures changed <==> exists r <- batch :: r.ref !in old(records)
    {
      changed := false;
      ghost var before := records;
      for i := 0 to |batch|
        invariant records == Merged(before, batch[..i])
        invariant changed <==> records.Keys != before.Keys
        invariant before.Keys <= records.Keys
      {
        assert batch[..i + 1][..i] == batch[..i];
        if batch[i].ref !in records {
          records := records[batch[i].ref := batch[i]];
          changed := true;
        }
      }
      assert batch[..|batch|] == batch;
      MergedStaysOwned(before, batch);
    }

    /**
     * One page after `after`: exactly the references up to `next`, in order, and `next` is the
     * last of them when any are left. A limit out of range is refused.
     */
    method Inventory(after: Option<Ref>, limit: int) returns (ok: bool, entries: seq<Ref>, next: Option<Ref>)
      ensures ok <==> 1 <= limit <= MAX_INVENTORY
      ensures ok ==>
                && |entries| <= limit && Ascending(entries)
                && (forall ref :: ref in entries <==>
                      ref in records && Past(ref, after) && (next.None? || !Before(next.value, ref)))
                && (next.Some? ==> entries != [] && next.value == entries[|entries| - 1])
                && (next.Some? ==> |entries| == limit && exists ref <- records :: Before(next.value, ref))
    {
      ok, entries, next := 1 <= limit <= MAX_INVENTORY, [], None;
      if !ok { return; }
      var last := after;
      var rest := set ref <- records | Past(ref, after);
      while rest != {}
        invariant |entries| <= limit && Ascending(entries)
        invariant last == if entries == [] then after else Some(entries[|entries| - 1])
        invariant rest == set ref <- records | Past(ref, last)
        invariant forall ref :: ref in entries <==> ref in records && Past(ref, after) && ref !in rest
        invariant forall ref <- rest :: Past(ref, after)
        decreases rest
      {
        if |entries| == limit {
          next := last;
          forall ref ensures ref in rest <==> ref in records && Past(ref, after) && Before(next.value, ref) {}
          ghost var more :| more in rest;
          assert more in records && Before(next.value, more);
          return;
        }
        var least := LeastOf(rest);
        assert forall e <- entries :: e !in rest && Past(least, last);
        forall i | 0 <= i < |entries| ensures Before(entries[i], least) {
          if i < |entries| - 1 { BeforeIsTransitive(entries[i], entries[|entries| - 1], least); }
        }
        entries := entries + [least];
        last := Some(least);
        ghost var before := rest;
        rest := set ref <- rest | Before(least, ref);
        forall ref ensures ref in records && Past(ref, last) ==> ref in rest {
          if ref in records && Before(least, ref) && |entries| > 1 {
            BeforeIsTransitive(entries[|entries| - 2], least, ref);
          } else if ref in records && Before(least, ref) && after.Some? {
            BeforeIsTransitive(after.value, least, ref);
          }
        }
        forall ref | ref in before ensures ref in rest || ref == least { BeforeIsTotal(ref, least); }
        BeforeIsTotal(least, least);
      }
    }

    /** The page as sent: each reference with its digest. */
    method Page(after: Option<Ref>) returns (entries: seq<Record>, next: Option<Ref>)
      requires Valid()
      ensures |entries| <= MAX_INVENTORY && Ascending(RefsOf(entries))
      ensures forall e <- entries :: e.ref in records && records[e.ref] == e && Past(e.ref, after)
      ensures forall ref <- records :: Past(ref, after) && (next.None? || !Before(next.value, ref)) ==>
                records[ref] in entries
      ensures next.Some? ==> entries != [] && next.value == entries[|entries| - 1].ref
    {
      var ok, refs;
      ok, refs, next := Inventory(after, MAX_INVENTORY);
      forall i | 0 <= i < |refs| ensures refs[i] in records { assert refs[i] in refs; }
      var here := records;
      entries := seq(|refs|, i requires 0 <= i < |refs| && refs[i] in here => here[refs[i]]);
      assert RefsOf(entries) == refs by {
        forall i | 0 <= i < |refs| ensures entries[i].ref == refs[i] {}
      }
      forall ref | ref in records && Past(ref, after) && (next.None? || !Before(next.value, ref))
        ensures records[ref] in entries
      {
        var i :| 0 <= i < |refs| && refs[i] == ref;
        assert entries[i] == records[ref];
      }
      forall e | e in entries ensures e.ref in records && records[e.ref] == e && Past(e.ref, after) {
        var i :| 0 <= i < |entries| && entries[i] == e;
        assert refs[i] in refs;
      }
    }

    /**
     * What of a peer's page is not here, in the peer's order; a differing payload latches. Too
     * long a page is refused.
     */
    method MissingReferences(entries: seq<Record>) returns (missing: seq<Record>, check: PageCheck)
      requires Valid()
      modifies `conflict
      ensures check.TooLong? <==> |entries| > MAX_INVENTORY
      ensures check.Agreed? <==> |entries| <= MAX_INVENTORY && forall e <- entries :: !Differs(records, e)
      ensures check.Differing? ==> conflict.Some?
      ensures !check.Differing? ==> conflict == old(conflict)
      ensures check.Agreed? ==> forall e :: e in missing <==> e in entries && e.ref !in records
      ensures forall e <- missing :: e in entries
      ensures Ascending(RefsOf(entries)) ==> Ascending(RefsOf(missing))
    {
      missing := [];
      if |entries| > MAX_INVENTORY { return missing, TooLong; }
      for i := 0 to |entries|
        invariant conflict == old(conflict)
        invariant forall e <- entries[..i] :: !Differs(records, e)
        invariant forall e :: e in missing <==> e in entries[..i] && e.ref !in records
        invariant Ascending(RefsOf(entries)) ==> Ascending(RefsOf(missing))
      {
        var e := entries[i];
        assert entries[..i + 1] == entries[..i] + [e];
        if e.ref !in records {
          if Ascending(RefsOf(entries)) {
            forall k | 0 <= k < |missing| ensures Before(missing[k].ref, e.ref) {
              assert missing[k] in entries[..i];
              var j :| 0 <= j < i && entries[j] == missing[k];
              assert Before(RefsOf(entries)[j], RefsOf(entries)[i]);
            }
          }
          missing := missing + [e];
        } else if records[e.ref] != e {
          conflict := Some(e.ref);
          assert Differs(records, entries[i]);
          return missing, Differing;
        }
      }
      assert entries[..|entries|] == entries;
      check := Agreed;
    }

    /** Serve a request for records: all of them or none. */
    method Operations(refs: seq<Ref>) returns (found: Option<seq<Record>>)
      ensures found.Some? <==>
                1 <= |refs| <= MAX_OPERATION_REFS && Distinct(refs) && forall ref <- refs :: ref in records
      ensures found.Some? ==>
                && |found.value| == |refs|
                && forall i | 0 <= i < |refs| :: found.value[i] == records[refs[i]]
    {
      if |refs| == 0 || |refs| > MAX_OPERATION_REFS { return None; }
      var known: set<Ref> := {};
      var served: seq<Record> := [];
      for i := 0 to |refs|
        invariant known == set k | 0 <= k < i :: refs[k]
        invariant Distinct(refs[..i])
        invariant |served| == i
        invariant forall k | 0 <= k < i :: refs[k] in records && served[k] == records[refs[k]]
      {
        if refs[i] in known { return None; }
        if refs[i] !in records {
          assert refs[i] in refs;
          return None;
        }
        known := known + {refs[i]};
        served := served + [records[refs[i]]];
      }
      assert refs[..|refs|] == refs;
      found := Some(served);
    }

    method LeastOf(refs: set<Ref>) returns (least: Ref)
      requires refs != {}
      ensures least in refs && forall ref <- refs :: ref == least || Before(least, ref)
    {
      ghost var first := LeastExists(refs);
      least :| least in refs && forall ref <- refs :: ref == least || Before(least, ref);
    }
  }

  function SetOf(batch: seq<Record>): set<Record> {
    set r <- batch
  }

  lemma SetOfExtends(batch: seq<Record>, i: nat)
    requires i < |batch|
    ensures SetOf(batch[..i + 1]) == SetOf(batch[..i]) + {batch[i]}
    ensures SetOf(batch[..i]) <= SetOf(batch)
  {
  }

  /** `owners` says, for each device sequence in use, which operation has it. */
  ghost predicate Owns(owners: map<(nat, Option<nat>), Ref>, records: set<Record>) {
    && (forall r <- records | r.sequence.Some? ::
          (r.device, r.sequence) in owners && owners[(r.device, r.sequence)] == r.ref)
    && (forall key <- owners ::
          key.1.Some? && exists r <- records :: r.sequence == key.1 && r.device == key.0 && r.ref == owners[key])
  }

  lemma OwnedKey(owners: map<(nat, Option<nat>), Ref>, records: set<Record>, r: Record)
    requires Owns(owners, records) && SequencesOwned(records + {r}) && r.sequence.Some?
    ensures (r.device, r.sequence) in owners ==> owners[(r.device, r.sequence)] == r.ref
  {
    var key := (r.device, r.sequence);
    if key in owners {
      var s :| s in records && s.sequence == key.1 && s.device == key.0 && s.ref == owners[key];
      assert SharesSequence(r, s);
    }
  }

  lemma NotOwned(owners: map<(nat, Option<nat>), Ref>, records: set<Record>, r: Record)
    requires Owns(owners, records) && r.sequence.Some?
    requires (r.device, r.sequence) in owners && owners[(r.device, r.sequence)] != r.ref
    ensures exists s <- records :: SharesSequence(r, s) && s.ref != r.ref
  {
  }

  lemma OwnsExtends(owners: map<(nat, Option<nat>), Ref>, records: set<Record>, r: Record)
    requires Owns(owners, records)
    requires r.sequence.Some? && (r.device, r.sequence) in owners ==> owners[(r.device, r.sequence)] == r.ref
    ensures Owns(if r.sequence.Some? then owners[(r.device, r.sequence) := r.ref] else owners, records + {r})
    ensures SequencesOwned(records) ==> SequencesOwned(records + {r})
  {
  }

  lemma {:induction false} LeastExists(refs: set<Ref>) returns (least: Ref)
    requires refs != {}
    ensures least in refs && forall ref <- refs :: ref == least || Before(least, ref)
  {
    var some :| some in refs;
    least := some;
    var rest := refs - {some};
    assert refs == rest + {some};
    if rest != {} {
      var other := LeastExists(rest);
      BeforeIsTotal(some, other);
      if Before(some, other) {
        forall ref | ref in refs && ref != some ensures Before(some, ref) {
          if ref != other { BeforeIsTransitive(some, other, ref); }
        }
      } else {
        least := other;
      }
    }
  }
}
