/**
 * Validation of what the opaque shared core returns for `reconcile.rebase.v2`, and of the server's
 * acknowledgements. The core's answer is any JSON value at all.
 */
module Reconciliation {
  import opened Prelude
  import opened Json
  import opened QueueModel

  // ----- Acknowledgements -----

  const OUTCOMES := {"applied", "ignored", "rejected"}

  ghost predicate ValidAcknowledgement(item: Json, idKey: string) {
    && item.Obj?
    && Get(item.members, idKey).Str?
    && Get(item.members, "outcome").Str? && Get(item.members, "outcome").s in OUTCOMES
    && ("reason" in item.members ==> item.members["reason"].Str?)
  }

  function ItemId(item: Json, idKey: string): Json {
    if item.Obj? then Get(item.members, idKey) else Null
  }

  ghost predicate Distinct<T(!new)>(s: seq<T>) {
    forall i, j | 0 <= i < j < |s| :: s[i] != s[j]
  }

  /** Exactly the sent operations, each once. */
  ghost predicate AcknowledgesExactly(request: seq<Json>, response: seq<Json>, idKey: string) {
    && (forall item <- request :: ItemId(item, "id").Str?)
    && (forall item <- response :: ValidAcknowledgement(item, idKey))
    && Distinct(IdsOf(request, "id")) && Distinct(IdsOf(response, idKey))
    && forall id :: id in IdsOf(request, "id") <==> id in IdsOf(response, idKey)
  }

  function IdsOf(items: seq<Json>, idKey: string): (ids: seq<Json>)
    ensures |ids| == |items| && forall i | 0 <= i < |items| :: ids[i] == ItemId(items[i], idKey)
  {
    seq(|items|, i requires 0 <= i < |items| => ItemId(items[i], idKey))
  }

  method CheckDistinct<T(==, !new)>(items: seq<T>) returns (distinct: bool, all: set<T>)
    ensures distinct <==> Distinct(items)
    ensures distinct ==> all == set x <- items
  {
    all := {};
    for i := 0 to |items|
      invariant all == set x <- items[..i]
      invariant Distinct(items[..i])
    {
      if items[i] in all {
        ghost var k :| 0 <= k < i && items[..i][k] == items[i];
        assert items[k] == items[i];
        return false, all;
      }
      assert items[..i + 1] == items[..i] + [items[i]];
      all := all + {items[i]};
    }
    assert items[..|items|] == items;
    distinct := true;
  }

  method CheckAcknowledgement(item: Json, idKey: string) returns (ok: bool)
    ensures ok <==> ValidAcknowledgement(item, idKey)
  {
    if !item.Obj? || !Get(item.members, idKey).Str? { return false; }
    if Get(item.members, "outcome") !in {Str("applied"), Str("ignored"), Str("rejected")} { return false; }
    ok := "reason" !in item.members || item.members["reason"].Str?;
  }

  method ValidateAcknowledgements(request: Json, response: Json, idKey: string)
    returns (acknowledged: Option<set<string>>)
    ensures acknowledged.Some? <==>
              request.Arr? && response.Arr? && AcknowledgesExactly(request.items, response.items, idKey)
    ensures acknowledged.Some? ==>
              forall id :: id in acknowledged.value <==> Str(id) in IdsOf(request.items, "id")
  {
    if !request.Arr? || !response.Arr? { return None; }
    for i := 0 to |response.items|
      invariant forall k | 0 <= k < i :: ValidAcknowledgement(response.items[k], idKey)
    {
      var valid := CheckAcknowledgement(response.items[i], idKey);
      if !valid { return None; }
    }
    var sent, acked := IdsOf(request.items, "id"), IdsOf(response.items, idKey);
    for i := 0 to |sent|
      invariant forall k | 0 <= k < i :: sent[k].Str?
    {
      if !sent[i].Str? {
        assert request.items[i] in request.items;
        return None;
      }
    }
    var distinctSent, sentSet := CheckDistinct(sent);
    var distinctAcked, ackedSet := CheckDistinct(acked);
    if !distinctSent || !distinctAcked || sentSet != ackedSet { return None; }
    acknowledged := Some(set id <- sentSet :: id.s);
    forall id ensures id in acknowledged.value <==> Str(id) in sent {
      if id in acknowledged.value {
        var j :| j in sentSet && j.s == id;
        assert j == Str(id);
      }
    }
  }

  // ----- Operations -----

  ghost predicate IsDelete(d: Domain, p: Payload) {
    d == TaskOperations && Get(p, "type") == Str("delete")
  }

  /** The operations taken from the core: this device's, every member present and none foreign. */
  ghost predicate Acceptable(d: Domain, value: Json, deviceId: string) {
    && value.Obj?
    && Get(value.members, "deviceId") == Str(deviceId)
    && value.members.Keys <= AllowedFields(d)
    && (RequiredFields(d) <= value.members.Keys ||
        (IsDelete(d, value.members) && RequiredFields(d) - value.members.Keys == {"title"}))
  }

  /** One operation from the core, in the shape the queue table stores; `None` refuses it. */
  function NormalizedOperation(d: Domain, value: Json, deviceId: string): (r: Option<Payload>)
    ensures r.Some? <==> Acceptable(d, value, deviceId)
    ensures r.Some? ==>
              && Shaped(d, r.value) && "id" in r.value
              && (forall key <- r.value :: key in value.members && r.value[key] == value.members[key])
              && (forall key :: key in r.value <==>
                    && key in value.members
                    && !(key == "deviceId" && d in {Commands, TaskOperations, DurationOperations})
                    && !(key == "title" && IsDelete(d, value.members) && value.members[key] == Str("")))
  {
    if !value.Obj? || Get(value.members, "deviceId") != Str(deviceId) then None
    else
      var given := value.members;
      var missing := RequiredFields(d) - given.Keys;
      var isDelete := d == TaskOperations && Get(given, "type") == Str("delete");
      if missing != {} && !(isDelete && missing == {"title"}) then None
      else if given.Keys - AllowedFields(d) != {} then None
      else
        assert "id" in RequiredFields(d);
        assert "id" in given by { assert "id" !in missing; }
        assert d == SelectedTaskOperations ==> "taskId" in given by {
          assert d == SelectedTaskOperations ==> "taskId" in RequiredFields(d) && "taskId" !in missing;
        }
        var stored := if d in {Commands, TaskOperations, DurationOperations} then given - {"deviceId"} else given;
        Some(if isDelete && Get(stored, "title") == Str("") then stored - {"title"} else stored)
  }

  function NormalizedOperations(d: Domain, items: seq<Json>, deviceId: string): (r: Option<seq<Payload>>)
    ensures r.Some? ==> |r.value| == |items|
    ensures r.Some? ==> forall i | 0 <= i < |items| :: NormalizedOperation(d, items[i], deviceId) == Some(r.value[i])
  {
    if forall i | 0 <= i < |items| :: NormalizedOperation(d, items[i], deviceId).Some? then
      Some(seq(|items|, i requires 0 <= i < |items| && NormalizedOperation(d, items[i], deviceId).Some? =>
                          NormalizedOperation(d, items[i], deviceId).value))
    else None
  }

  function NormalizedQueue(d: Domain, value: Json, deviceId: string): (r: Option<seq<Payload>>)
    ensures r.Some? ==> forall p <- r.value :: Shaped(d, p)
  {
    if value.Arr? then NormalizedOperations(d, value.items, deviceId) else None
  }

  // ----- Queues -----

  /** `str(...)` of an identifier; what Python prints for anything but a string is left open. */
  function IdText(p: Payload, show: Json -> string): string {
    if Get(p, "id").Str? then Get(p, "id").s else show(Get(p, "id"))
  }

  function TextsOf(operations: seq<Payload>, show: Json -> string): (texts: seq<string>)
    ensures |texts| == |operations|
    ensures forall i | 0 <= i < |operations| :: texts[i] == IdText(operations[i], show)
  {
    seq(|operations|, i requires 0 <= i < |operations| => IdText(operations[i], show))
  }

  /** `retained_queue_ids`: acknowledged operations go, and so do dropped commands. */
  function RetainedIds(d: Domain, local: Queue, acknowledged: set<string>, dropped: set<string>): set<string> {
    local.Keys - acknowledged - if d == Commands then dropped else {}
  }

  /** What the validator compares: Python's `==` on what `dict.get` gives. */
  ghost predicate Alike(d: Domain, original: Payload, operation: Payload) {
    forall key | key !in Adjustable(d) :: Equal(Get(original, key), Get(operation, key))
  }

  ghost predicate QueueAgrees(d: Domain, operations: seq<Payload>, local: Queue, retained: set<string>,
                              show: Json -> string) {
    && Distinct(TextsOf(operations, show))
    && (set id <- TextsOf(operations, show)) == retained
    && forall p <- operations :: IdText(p, show) in local && Alike(d, local[IdText(p, show)], p)
  }

  method ValidateQueue(d: Domain, operations: seq<Payload>, local: Queue, acknowledged: set<string>,
                       dropped: set<string>, show: Json -> string)
    returns (ok: bool)
    ensures ok <==> QueueAgrees(d, operations, local, RetainedIds(d, local, acknowledged, dropped), show)
  {
    var texts := TextsOf(operations, show);
    var distinct, all := CheckDistinct(texts);
    if !distinct || all != RetainedIds(d, local, acknowledged, dropped) { return false; }
    for i := 0 to |operations|
      invariant forall k | 0 <= k < i :: IdText(operations[k], show) in local &&
                                         Alike(d, local[IdText(operations[k], show)], operations[k])
    {
      assert texts[i] in all;
      var same := PayloadAgrees(d, local[texts[i]], operations[i]);
      if !same {
        assert operations[i] in operations;
        return false;
      }
    }
    ok := true;
  }

  method PayloadAgrees(d: Domain, original: Payload, operation: Payload) returns (same: bool)
    ensures same <==> Alike(d, original, operation)
  {
    var compared := original.Keys + operation.Keys - Adjustable(d);
    same := forall key <- compared :: Equal(Get(original, key), Get(operation, key));
    if same {
      forall key | key !in Adjustable(d) ensures Equal(Get(original, key), Get(operation, key)) {
        assert key in compared || (key !in original && key !in operation);
      }
    }
  }

  // ----- Identifier sets and dependencies -----

  ghost predicate IdList(value: Json) {
    value.Arr? && Distinct(value.items) && forall item <- value.items :: item.Str? && item.s != ""
  }

  method ValidateIdList(value: Json) returns (ids: Option<set<string>>)
    ensures ids.Some? <==> IdList(value)
    ensures ids.Some? ==> forall id :: id in ids.value <==> Str(id) in value.items
  {
    if !value.Arr? { return None; }
    for i := 0 to |value.items|
      invariant forall k | 0 <= k < i :: value.items[k].Str? && value.items[k].s != ""
    {
      if !value.items[i].Str? || value.items[i].s == "" {
        assert value.items[i] in value.items;
        return None;
      }
    }
    var distinct, all := CheckDistinct(value.items);
    if !distinct { return None; }
    ids := Some(set item <- all :: item.s);
    forall id ensures id in ids.value <==> Str(id) in value.items {
      if id in ids.value {
        var j :| j in all && j.s == id;
        assert j == Str(id);
      }
    }
  }

  datatype Dependency = Dependency(child: string, parent: string, generatedBreak: bool)

  /** An edge between two different retained commands, with the day's bounds if the child was generated. */
  ghost predicate IsDependency(value: Json, retained: set<string>) {
    && value.Obj?
    && (exists child <- retained, parent <- retained ::
          && child != parent
          && Get(value.members, "operationId") == Str(child)
          && Get(value.members, "dependsOnOperationId") == Str(parent))
    && (value.members.Keys == {"operationId", "dependsOnOperationId"} ||
        (&& value.members.Keys ==
              {"operationId", "dependsOnOperationId", "generatedBreak", "sourceDayStart", "sourceDayEnd"}
         && Get(value.members, "generatedBreak") == Bool(true)
         && Get(value.members, "sourceDayStart").Str? && Get(value.members, "sourceDayEnd").Str?))
  }

  function ParsedDependency(value: Json, retained: set<string>): (r: Option<Dependency>)
    ensures r.Some? <==> IsDependency(value, retained)
    ensures r.Some? ==>
              && Get(value.members, "operationId") == Str(r.value.child)
              && Get(value.members, "dependsOnOperationId") == Str(r.value.parent)
              && (r.value.generatedBreak <==> "generatedBreak" in value.members)
              && r.value.child in retained && r.value.parent in retained && r.value.child != r.value.parent
  {
    if !value.Obj? then None
    else
      var generated := "generatedBreak" in value.members;
      var child, parent := Get(value.members, "operationId"), Get(value.members, "dependsOnOperationId");
      var keys := {"operationId", "dependsOnOperationId"} +
                  if generated then {"generatedBreak", "sourceDayStart", "sourceDayEnd"} else {};
      if value.members.Keys != keys || !child.Str? || !parent.Str? then None
      else if generated && (value.members["generatedBreak"] != Bool(true) ||
                            !value.members["sourceDayStart"].Str? || !value.members["sourceDayEnd"].Str?) then None
      else if child.s !in retained || parent.s !in retained || child.s == parent.s then None
      else Some(Dependency(child.s, parent.s, generated))
  }

  ghost predicate ShareChild(items: seq<Json>, retained: set<string>, i: nat, j: nat) {
    && i < j < |items|
    && var (a, b) := (ParsedDependency(items[i], retained), ParsedDependency(items[j], retained));
       a.Some? && b.Some? && a.value.child == b.value.child
  }

  /** Each retained command has at most one parent, itself retained. Cycles are not looked for. */
  ghost predicate DependenciesAgree(value: Json, retained: set<string>) {
    && value.Arr?
    && (forall i | 0 <= i < |value.items| :: ParsedDependency(value.items[i], retained).Some?)
    && (forall i: nat, j: nat {:trigger ShareChild(value.items, retained, i, j)} ::
          !ShareChild(value.items, retained, i, j))
  }

  method ValidateDependencies(value: Json, retained: set<string>) returns (parsed: Option<seq<Dependency>>)
    ensures parsed.Some? <==> DependenciesAgree(value, retained)
    ensures parsed.Some? ==>
              && |parsed.value| == |value.items|
              && forall i | 0 <= i < |value.items| ::
                   ParsedDependency(value.items[i], retained) == Some(parsed.value[i])
  {
    if !value.Arr? { return None; }
    var children: set<string> := {};
    var all: seq<Dependency> := [];
    for i := 0 to |value.items|
      invariant |all| == i
      invariant forall k | 0 <= k < i :: ParsedDependency(value.items[k], retained) == Some(all[k])
      invariant children == set k | 0 <= k < i :: all[k].child
      invariant forall k, l | 0 <= k < l < i :: all[k].child != all[l].child
    {
      var dependency := ParsedDependency(value.items[i], retained);
      if dependency.None? { return None; }
      if dependency.value.child in children {
        ghost var k :| 0 <= k < i && all[k].child == dependency.value.child;
        assert ShareChild(value.items, retained, k, i);
        return None;
      }
      children := children + {dependency.value.child};
      all := all + [dependency.value];
    }
    parsed := Some(all);
  }

  // ----- Safe optimistic queues -----

  /** The retained operation of the same identifier is equal. */
  ghost predicate Drawn(p: Payload, operations: seq<Payload>, show: Json -> string) {
    exists q <- operations :: IdText(q, show) == IdText(p, show) && Equal(Obj(q), Obj(p))
  }

  /** A domain's optimistic queue is empty, or as long as the retained one and drawn from it. */
  ghost predicate SafelyProjected(d: Domain, items: Json, operations: seq<Payload>, deviceId: string,
                                  show: Json -> string) {
    && items.Arr?
    && (items.items != [] ==>
          && |items.items| == |operations|
          && NormalizedQueue(d, items, deviceId).Some?
          && forall p <- NormalizedQueue(d, items, deviceId).value :: Drawn(p, operations, show))
  }

  method ValidateProjected(d: Domain, items: Json, operations: seq<Payload>, deviceId: string, show: Json -> string)
    returns (projected: Option<seq<Payload>>)
    requires Distinct(TextsOf(operations, show))
    ensures projected.Some? <==> SafelyProjected(d, items, operations, deviceId, show)
    ensures projected.Some? ==> projected.value == [] || NormalizedQueue(d, items, deviceId) == projected
  {
    if !items.Arr? { return None; }
    if items.items == [] { return Some([]); }
    if |items.items| != |operations| { return None; }
    var checked := NormalizedQueue(d, items, deviceId);
    if checked.None? { return None; }
    var drawn := DrawnFrom(checked.value, operations, show);
    if !drawn { return None; }
    projected := checked;
  }

  method DrawnFrom(checked: seq<Payload>, operations: seq<Payload>, show: Json -> string) returns (drawn: bool)
    requires Distinct(TextsOf(operations, show))
    ensures drawn <==> forall p <- checked :: Drawn(p, operations, show)
  {
    for i := 0 to |checked|
      invariant forall k | 0 <= k < i :: Drawn(checked[k], operations, show)
    {
      var found := Lookup(operations, IdText(checked[i], show), show);
      if found.None? || !Equal(Obj(found.value), Obj(checked[i])) {
        forall q | q in operations && IdText(q, show) == IdText(checked[i], show) ensures found == Some(q) {
          LookupFindsMembers(operations, q, show);
        }
        assert checked[i] in checked;
        return false;
      }
    }
    drawn := true;
  }

  /** The retained operation with this identifier; the last one, as a dictionary keeps it. */
  function Lookup(operations: seq<Payload>, id: string, show: Json -> string): (r: Option<Payload>)
    ensures r.Some? ==> r.value in operations && IdText(r.value, show) == id
  {
    if operations == [] then None
    else
      var last := operations[|operations| - 1];
      if IdText(last, show) == id then Some(last) else Lookup(operations[..|operations| - 1], id, show)
  }

  lemma {:induction false} LookupFindsMembers(operations: seq<Payload>, p: Payload, show: Json -> string)
    requires Distinct(TextsOf(operations, show))
    ensures p in operations ==> Lookup(operations, IdText(p, show), show) == Some(p)
  {
    if operations != [] {
      var front, last := operations[..|operations| - 1], operations[|operations| - 1];
      assert operations == front + [last];
      var texts := TextsOf(operations, show);
      assert TextsOf(front, show) == texts[..|front|];
      if p in front {
        var i :| 0 <= i < |front| && front[i] == p;
        assert texts[i] != texts[|front|];
      }
      LookupFindsMembers(front, p, show);
    }
  }
}
