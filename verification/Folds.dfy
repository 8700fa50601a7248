/** Replaying queued operations: the last effective writer of each entity wins. */
module Folds {
  import opened Prelude
  import opened Json
  import Order

  // ----- Keys -----

  /** What operations are sorted by; identifiers by code points, `device` empty where it does not count. */
  datatype Key = Key(wall: int, counter: int, device: seq<nat>, id: seq<nat>)

  predicate Before(a: Key, b: Key) {
    || a.wall < b.wall
    || (a.wall == b.wall && a.counter < b.counter)
    || (a.wall == b.wall && a.counter == b.counter && Order.Less(a.device, b.device))
    || (a.wall == b.wall && a.counter == b.counter && a.device == b.device && Order.Less(a.id, b.id))
  }

  lemma BeforeIsStrict(a: Key, b: Key, c: Key)
    ensures Before(a, b) || a == b || Before(b, a)
    ensures !(Before(a, b) && Before(b, a))
    ensures Before(a, b) && Before(b, c) ==> Before(a, c)
  {
    Order.Total(a.device, b.device);
    Order.Total(a.id, b.id);
    Order.Irreflexive(a.device);
    Order.Irreflexive(a.id);
    if Order.Less(a.device, b.device) && Order.Less(b.device, a.device) {
      Order.Transitive(a.device, b.device, a.device);
    }
    if Order.Less(a.id, b.id) && Order.Less(b.id, a.id) { Order.Transitive(a.id, b.id, a.id); }
    if Order.Less(a.device, b.device) && Order.Less(b.device, c.device) {
      Order.Transitive(a.device, b.device, c.device);
    }
    if Order.Less(a.id, b.id) && Order.Less(b.id, c.id) { Order.Transitive(a.id, b.id, c.id); }
  }

  // ----- Writes -----

  datatype Effect<V> = Nothing | Remove | Put(value: V)

  /** One operation as the fold sees it. */
  datatype Write<V> = Write(key: Key, entity: string, effect: Effect<V>)

  function Apply<V>(state: map<string, V>, w: Write<V>): map<string, V> {
    match w.effect
    case Nothing => state
    case Remove => state - {w.entity}
    case Put(value) => state[w.entity := value]
  }

  function Fold<V>(base: map<string, V>, writes: seq<Write<V>>): map<string, V> {
    if writes == [] then base else Apply(Fold(base, writes[..|writes| - 1]), writes[|writes| - 1])
  }

  lemma FoldOneMore<V>(base: map<string, V>, writes: seq<Write<V>>, i: nat)
    requires i < |writes|
    ensures Fold(base, writes[..i + 1]) == Apply(Fold(base, writes[..i]), writes[i])
  {
    assert writes[..i + 1][..i] == writes[..i];
  }

  function Insert<V>(w: Write<V>, writes: seq<Write<V>>): seq<Write<V>> {
    if writes == [] || !Before(writes[0].key, w.key) then [w] + writes else [writes[0]] + Insert(w, writes[1..])
  }

  /** A stable sort by key. */
  function Sorted<V>(writes: seq<Write<V>>): seq<Write<V>> {
    if writes == [] then [] else Insert(writes[0], Sorted(writes[1..]))
  }

  ghost predicate DistinctKeys<V>(writes: seq<Write<V>>) {
    forall i, j | 0 <= i < j < |writes| :: writes[i].key != writes[j].key
  }

  ghost predicate Ascending<V>(writes: seq<Write<V>>) {
    forall i, j | 0 <= i < j < |writes| :: Before(writes[i].key, writes[j].key)
  }

  ghost predicate SameMembers<V(!new)>(a: seq<Write<V>>, b: seq<Write<V>>) {
    forall x :: x in a <==> x in b
  }

  lemma AscendingFrom<V(!new)>(w: Write<V>, writes: seq<Write<V>>)
    requires Ascending(writes) && forall x <- writes :: Before(w.key, x.key)
    ensures Ascending([w] + writes)
  {
  }

  lemma {:induction false} InsertKeeps<V(!new)>(w: Write<V>, writes: seq<Write<V>>)
    ensures SameMembers(Insert(w, writes), [w] + writes)
    ensures Ascending(writes) && (forall x <- writes :: x.key != w.key) ==> Ascending(Insert(w, writes))
  {
    if writes != [] {
      var first, rest := writes[0], writes[1..];
      assert writes == [first] + rest;
      InsertKeeps(w, rest);
      if Ascending(writes) && (forall x <- writes :: x.key != w.key) {
        BeforeIsStrict(first.key, w.key, first.key);
        if Before(first.key, w.key) {
          forall x | x in Insert(w, rest) ensures Before(first.key, x.key) {
            assert x in [w] + rest;
          }
          AscendingFrom(first, Insert(w, rest));
        } else {
          forall x | x in writes ensures Before(w.key, x.key) { BeforeIsStrict(w.key, first.key, x.key); }
          AscendingFrom(w, writes);
        }
      }
    }
  }

  lemma {:induction false} SortedKeeps<V(!new)>(writes: seq<Write<V>>)
    ensures SameMembers(Sorted(writes), writes)
    ensures DistinctKeys(writes) ==> Ascending(Sorted(writes))
  {
    if writes != [] {
      SortedKeeps(writes[1..]);
      InsertKeeps(writes[0], Sorted(writes[1..]));
      assert writes == [writes[0]] + writes[1..];
      if DistinctKeys(writes) {
        forall x | x in Sorted(writes[1..]) ensures x.key != writes[0].key {
          assert x in writes[1..];
        }
      }
    }
  }

  // ----- Last effective writer wins -----

  predicate Effective<V>(w: Write<V>, entity: string) {
    w.entity == entity && w.effect != Nothing
  }

  ghost predicate HasWriter<V(!new)>(writes: seq<Write<V>>, entity: string) {
    exists w <- writes :: Effective(w, entity)
  }

  /** The effective write to the entity with the greatest key, wherever in the queue it stands. */
  ghost predicate IsLastWriter<V(!new)>(w: Write<V>, writes: seq<Write<V>>, entity: string) {
    && w in writes && Effective(w, entity)
    && forall other <- writes | Effective(other, entity) && other != w :: Before(other.key, w.key)
  }

  function Left<V>(w: Write<V>): Option<V> {
    if w.effect.Put? then Some(w.effect.value) else None
  }

  lemma FoldOfLast<V(!new)>(state: map<string, V>, w: Write<V>, entity: string)
    ensures At(Apply(state, w), entity) == if Effective(w, entity) then Left(w) else At(state, entity)
  {
  }

  lemma {:induction false} FoldLeavesLastWriter<V(!new)>(base: map<string, V>, writes: seq<Write<V>>, entity: string)
    requires Ascending(writes)
    ensures !HasWriter(writes, entity) ==> At(Fold(base, writes), entity) == At(base, entity)
    ensures forall w | IsLastWriter(w, writes, entity) :: At(Fold(base, writes), entity) == Left(w)
  {
    if writes != [] {
      var front, last := writes[..|writes| - 1], writes[|writes| - 1];
      assert writes == front + [last];
      FoldLeavesLastWriter(base, front, entity);
      FoldOfLast(Fold(base, front), last, entity);
      forall w | IsLastWriter(w, writes, entity) && w != last
        ensures !Effective(last, entity) && IsLastWriter(w, front, entity)
      {
        if Effective(last, entity) {
          var i :| 0 <= i < |front| && front[i] == w;
          BeforeIsStrict(writes[i].key, writes[|front|].key, w.key);
        }
      }
    }
  }

  lemma {:induction false} LastWriterExists<V(!new)>(writes: seq<Write<V>>, entity: string)
    requires Ascending(writes) && HasWriter(writes, entity)
    ensures exists w :: IsLastWriter(w, writes, entity)
  {
    var front, last := writes[..|writes| - 1], writes[|writes| - 1];
    assert writes == front + [last];
    if Effective(last, entity) {
      assert IsLastWriter(last, writes, entity);
    } else {
      LastWriterExists(front, entity);
      var w :| IsLastWriter(w, front, entity);
      assert IsLastWriter(w, writes, entity);
    }
  }

  /** In whatever order the operations are queued, each entity is left as its last effective writer says. */
  lemma LastEffectiveWriterWins<V(!new)>(base: map<string, V>, queue: seq<Write<V>>, entity: string)
    requires DistinctKeys(queue)
    ensures if HasWriter(queue, entity)
            then exists w :: IsLastWriter(w, queue, entity) && At(Fold(base, Sorted(queue)), entity) == Left(w)
            else At(Fold(base, Sorted(queue)), entity) == At(base, entity)
  {
    var sorted := Sorted(queue);
    SortedKeeps(queue);
    FoldLeavesLastWriter(base, sorted, entity);
    if HasWriter(queue, entity) {
      LastWriterExists(sorted, entity);
      var w :| IsLastWriter(w, sorted, entity);
      assert IsLastWriter(w, queue, entity);
    } else {
      forall w | w in sorted ensures !Effective(w, entity) { assert w in queue; }
    }
  }

  /** The later key decides: by wall time, then counter, then the first difference of device or identifier. */
  ghost predicate Outranks(a: Key, b: Key) {
    || b.wall < a.wall
    || (b.wall == a.wall && b.counter < a.counter)
    || (b.wall == a.wall && b.counter == a.counter &&
        (Order.Precedes(b.device, a.device) || (b.device == a.device && Order.Precedes(b.id, a.id))))
  }

  lemma BeforeMeans(a: Key, b: Key)
    ensures Before(a, b) <==> Outranks(b, a)
  {
    Order.LessMeans(a.device, b.device);
    Order.LessMeans(a.id, b.id);
  }

  ghost predicate IsLatest<V(!new)>(w: Write<V>, writes: seq<Write<V>>, entity: string) {
    && w in writes && Effective(w, entity)
    && forall other <- writes | Effective(other, entity) && other != w :: Outranks(w.key, other.key)
  }

  /** Whatever the queue's order: the latest effective write decides, and without one the base stays. */
  lemma LatestDecides<V(!new)>(base: map<string, V>, queue: seq<Write<V>>, entity: string)
    requires DistinctKeys(queue)
    ensures HasWriter(queue, entity) ==> exists w :: IsLatest(w, queue, entity)
    ensures forall w | IsLatest(w, queue, entity) :: At(Fold(base, Sorted(queue)), entity) == Left(w)
    ensures !HasWriter(queue, entity) ==> At(Fold(base, Sorted(queue)), entity) == At(base, entity)
  {
    LastEffectiveWriterWins(base, queue, entity);
    forall w ensures IsLatest(w, queue, entity) <==> IsLastWriter(w, queue, entity) {
      forall other | other in queue ensures Before(other.key, w.key) <==> Outranks(w.key, other.key) {
        BeforeMeans(other.key, w.key);
      }
    }
    forall v, w | IsLatest(v, queue, entity) && IsLatest(w, queue, entity) ensures v == w {
      LastWriterIsUnique(v, w, queue, entity);
    }
  }

  lemma LastWriterIsUnique<V(!new)>(v: Write<V>, w: Write<V>, queue: seq<Write<V>>, entity: string)
    requires IsLastWriter(v, queue, entity) && IsLastWriter(w, queue, entity)
    ensures v == w
  {
    if v != w { BeforeIsStrict(v.key, w.key, v.key); }
  }

  /** Two queues whose entities have the same last effective writers leave the same state. */
  lemma SameWritersSameState<V(!new)>(base: map<string, V>, a: seq<Write<V>>, b: seq<Write<V>>)
    requires DistinctKeys(a) && DistinctKeys(b)
    requires forall entity, w :: IsLastWriter(w, a, entity) <==> IsLastWriter(w, b, entity)
    requires forall entity :: HasWriter(a, entity) <==> HasWriter(b, entity)
    ensures Fold(base, Sorted(a)) == Fold(base, Sorted(b))
  {
    forall entity ensures At(Fold(base, Sorted(a)), entity) == At(Fold(base, Sorted(b)), entity) {
      LastEffectiveWriterWins(base, a, entity);
      LastEffectiveWriterWins(base, b, entity);
      if HasWriter(a, entity) {
        var v :| IsLastWriter(v, a, entity) && At(Fold(base, Sorted(a)), entity) == Left(v);
        var w :| IsLastWriter(w, b, entity) && At(Fold(base, Sorted(b)), entity) == Left(w);
        LastWriterIsUnique(v, w, b, entity);
      }
    }
    SameMaps(Fold(base, Sorted(a)), Fold(base, Sorted(b)));
  }

  lemma QueueOrderDoesNotMatter<V(!new)>(base: map<string, V>, a: seq<Write<V>>, b: seq<Write<V>>)
    requires DistinctKeys(a) && DistinctKeys(b) && SameMembers(a, b)
    ensures Fold(base, Sorted(a)) == Fold(base, Sorted(b))
  {
    SameWritersSameState(base, a, b);
  }

  function Others<V(!new)>(queue: seq<Write<V>>, entity: string): (others: seq<Write<V>>)
    ensures forall w :: w in others <==> w in queue && w.entity != entity
  {
    if queue == [] then []
    else
      assert queue == [queue[0]] + queue[1..];
      (if queue[0].entity == entity then [] else [queue[0]]) + Others(queue[1..], entity)
  }

  lemma {:induction false} OthersStayDistinct<V(!new)>(queue: seq<Write<V>>, entity: string)
    requires DistinctKeys(queue)
    ensures DistinctKeys(Others(queue, entity))
  {
    if queue != [] {
      OthersStayDistinct(queue[1..], entity);
      var rest := Others(queue[1..], entity);
      forall k | 0 <= k < |rest| ensures rest[k].key != queue[0].key {
        assert rest[k] in queue[1..];
      }
    }
  }

  lemma AppendedStaysDistinct<V(!new)>(queue: seq<Write<V>>, others: seq<Write<V>>, w: Write<V>)
    requires DistinctKeys(queue + [w]) && DistinctKeys(others) && forall x <- others :: x in queue
    ensures DistinctKeys(others + [w])
  {
    var kept := queue + [w];
    forall k | 0 <= k < |others| ensures others[k].key != w.key {
      assert others[k] in others && others[k] in queue;
      var i :| 0 <= i < |queue| && queue[i] == others[k];
      assert kept[i].key != kept[|queue|].key;
    }
  }

  /** Replacing an entity's queued operations by a later effective one changes nothing. */
  lemma ReplacingKeepsTheState<V(!new)>(base: map<string, V>, queue: seq<Write<V>>, w: Write<V>)
    requires DistinctKeys(queue + [w]) && w.effect != Nothing
    requires forall other <- queue | other.entity == w.entity :: Before(other.key, w.key)
    ensures Fold(base, Sorted(queue + [w])) == Fold(base, Sorted(Others(queue, w.entity) + [w]))
  {
    var kept, replaced := queue + [w], Others(queue, w.entity) + [w];
    assert DistinctKeys(queue) by { assert forall i | 0 <= i < |queue| :: kept[i] == queue[i]; }
    OthersStayDistinct(queue, w.entity);
    AppendedStaysDistinct(queue, Others(queue, w.entity), w);
    forall entity, v ensures IsLastWriter(v, kept, entity) <==> IsLastWriter(v, replaced, entity) {
      if entity == w.entity {
        assert IsLastWriter(w, kept, entity) && IsLastWriter(w, replaced, entity);
        if IsLastWriter(v, kept, entity) { LastWriterIsUnique(v, w, kept, entity); }
        if IsLastWriter(v, replaced, entity) { LastWriterIsUnique(v, w, replaced, entity); }
      }
    }
    forall entity ensures HasWriter(kept, entity) <==> HasWriter(replaced, entity) {
      if entity == w.entity { assert Effective(w, entity); }
    }
    SameWritersSameState(base, kept, replaced);
  }

  // ----- Tasks -----

  datatype TaskOperation = TaskOperation(key: Key, taskId: Json, kind: Json, title: Json)

  /** How a title becomes an identifier and a normalized title; `None` where it is refused. */
  type TitleReader = string -> Option<(string, string)>

  function TaskWrite(o: TaskOperation, read: TitleReader): (w: Write<string>)
    ensures w.key == o.key
  {
    if !o.taskId.Str? || o.taskId.s == "" then Write(o.key, "", Nothing)
    else if o.kind == Str("delete") then Write(o.key, o.taskId.s, Remove)
    else if o.kind == Str("upsert") && o.title.Str? then
      match read(o.title.s)
      case Some((id, title)) => Write(o.key, o.taskId.s, if id == o.taskId.s then Put(title) else Nothing)
      case None => Write(o.key, o.taskId.s, Nothing)
    else Write(o.key, o.taskId.s, Nothing)
  }

  function TaskWrites(pending: seq<TaskOperation>, read: TitleReader): (writes: seq<Write<string>>)
    ensures |writes| == |pending| && forall i | 0 <= i < |writes| :: writes[i] == TaskWrite(pending[i], read)
  {
    seq(|pending|, i requires 0 <= i < |pending| => TaskWrite(pending[i], read))
  }

  ghost predicate Upserts(o: TaskOperation, id: string, title: string, read: TitleReader) {
    && id != "" && o.taskId == Str(id) && o.kind == Str("upsert")
    && o.title.Str? && read(o.title.s) == Some((id, title))
  }

  ghost predicate Deletes(o: TaskOperation, id: string) {
    id != "" && o.taskId == Str(id) && o.kind == Str("delete")
  }

  ghost predicate Touches(o: TaskOperation, id: string, read: TitleReader) {
    Deletes(o, id) || exists title :: Upserts(o, id, title, read)
  }

  ghost predicate IsLatestOn(o: TaskOperation, pending: seq<TaskOperation>, id: string, read: TitleReader) {
    && o in pending && Touches(o, id, read)
    && forall other <- pending | Touches(other, id, read) && other != o :: Outranks(o.key, other.key)
  }

  /** The latest operation on it gave the task this title, or none touched it and it was there before. */
  ghost predicate IsDecidedTask(base: map<string, string>, pending: seq<TaskOperation>, read: TitleReader, t: Task) {
    || (exists o :: IsLatestOn(o, pending, t.id, read) && Upserts(o, t.id, t.title, read))
    || ((forall o <- pending :: !Touches(o, t.id, read)) && t.id in base && base[t.id] == t.title)
  }

  lemma TouchingIsEffective(o: TaskOperation, id: string, read: TitleReader)
    ensures Touches(o, id, read) <==> Effective(TaskWrite(o, read), id)
    ensures Deletes(o, id) ==> TaskWrite(o, read) == Write(o.key, id, Remove)
    ensures forall title | Upserts(o, id, title, read) :: TaskWrite(o, read) == Write(o.key, id, Put(title))
    ensures Effective(TaskWrite(o, read), id) && TaskWrite(o, read).effect.Put? ==>
              Upserts(o, id, TaskWrite(o, read).effect.value, read)
  {
    var w := TaskWrite(o, read);
    if Effective(w, id) && w.effect.Put? { assert Upserts(o, id, w.effect.value, read); }
  }

  lemma TaskIsDecided(base: map<string, string>, pending: seq<TaskOperation>, read: TitleReader, t: Task)
    requires forall i, j | 0 <= i < j < |pending| :: pending[i].key != pending[j].key
    ensures IsTask(Fold(base, Sorted(TaskWrites(pending, read))), t) <==> IsDecidedTask(base, pending, read, t)
  {
    var writes := TaskWrites(pending, read);
    LatestDecides(base, writes, t.id);
    forall o | o in pending ensures Touches(o, t.id, read) <==> Effective(TaskWrite(o, read), t.id) {
      TouchingIsEffective(o, t.id, read);
    }
    forall o | o in pending ensures TaskWrite(o, read) in writes {
      var i :| 0 <= i < |pending| && pending[i] == o;
      assert writes[i] == TaskWrite(o, read);
    }
    if HasWriter(writes, t.id) {
      var w :| IsLatest(w, writes, t.id);
      var i :| 0 <= i < |writes| && writes[i] == w;
      LatestWriteIsLatestOn(pending, read, t.id, i);
      TouchingIsEffective(pending[i], t.id, read);
      assert pending[i] in pending;
      forall o | IsLatestOn(o, pending, t.id, read) ensures o == pending[i] {
        if o != pending[i] { BothCannotOutrank(o.key, pending[i].key); }
      }
    } else {
      forall o | o in pending ensures !Touches(o, t.id, read) { assert TaskWrite(o, read) in writes; }
    }
  }

  lemma BothCannotOutrank(a: Key, b: Key)
    ensures !(Outranks(a, b) && Outranks(b, a))
  {
    BeforeMeans(a, b);
    BeforeMeans(b, a);
    BeforeIsStrict(a, b, a);
  }

  lemma LatestWriteIsLatestOn(pending: seq<TaskOperation>, read: TitleReader, id: string, i: nat)
    requires forall k, l | 0 <= k < l < |pending| :: pending[k].key != pending[l].key
    requires i < |pending| && IsLatest(TaskWrites(pending, read)[i], TaskWrites(pending, read), id)
    ensures IsLatestOn(pending[i], pending, id, read)
  {
    var writes := TaskWrites(pending, read);
    TouchingIsEffective(pending[i], id, read);
    forall other | other in pending && Touches(other, id, read) && other != pending[i]
      ensures Outranks(pending[i].key, other.key)
    {
      var k :| 0 <= k < |pending| && pending[k] == other;
      TouchingIsEffective(other, id, read);
      assert writes[k] in writes && writes[k].key != writes[i].key;
    }
  }

  /** The tasks an operation queue leaves, in the order of their titles. */
  method RebuildTasks(base: map<string, string>, pending: seq<TaskOperation>, read: TitleReader)
    returns (tasks: seq<Task>)
    ensures forall t :: t in tasks <==> IsTask(Fold(base, Sorted(TaskWrites(pending, read))), t)
    ensures InTitleOrder(tasks)
    ensures (forall i, j | 0 <= i < j < |pending| :: pending[i].key != pending[j].key) ==>
              forall t :: t in tasks <==> IsDecidedTask(base, pending, read, t)
  {
    var ordered := Sorted(TaskWrites(pending, read));
    var state := base;
    for i := 0 to |ordered|
      invariant state == Fold(base, ordered[..i])
    {
      var operation := ordered[i];
      match operation.effect {
        case Remove => state := state - {operation.entity};
        case Put(title) => state := state[operation.entity := title];
        case Nothing =>
      }
      FoldOneMore(base, ordered, i);
    }
    assert ordered[..|ordered|] == ordered;
    tasks := InOrder(state);
    if forall i, j | 0 <= i < j < |pending| :: pending[i].key != pending[j].key {
      forall t ensures IsTask(state, t) <==> IsDecidedTask(base, pending, read, t) {
        TaskIsDecided(base, pending, read, t);
      }
    }
  }

  datatype Task = Task(id: string, title: string)

  ghost predicate IsTask(state: map<string, string>, t: Task) {
    t.id in state && state[t.id] == t.title
  }

  function CodePoints(s: string): seq<nat> {
    seq(|s|, i requires 0 <= i < |s| => s[i] as int)
  }

  /** Titles first, then identifiers; UTF-8 bytes and code points order texts alike. */
  function Listed(t: Task): Write<string> {
    Write(Key(0, 0, CodePoints(t.title), CodePoints(t.id)), t.id, Put(t.title))
  }

  function Unlisted(w: Write<string>): Task {
    Task(w.entity, if w.effect.Put? then w.effect.value else "")
  }

  /** By the first difference of the titles, of equal titles by that of the identifiers. */
  ghost predicate InTitleOrder(tasks: seq<Task>) {
    forall i, j | 0 <= i < j < |tasks| :: Earlier(tasks[i], tasks[j])
  }

  ghost predicate Earlier(a: Task, b: Task) {
    || Order.Precedes(CodePoints(a.title), CodePoints(b.title))
    || (a.title == b.title && Order.Precedes(CodePoints(a.id), CodePoints(b.id)))
  }

  lemma ListedInOrder(a: Task, b: Task)
    ensures Before(Listed(a).key, Listed(b).key) <==> Earlier(a, b)
  {
    BeforeMeans(Listed(a).key, Listed(b).key);
    CodePointsDiffer(a.title, b.title);
  }

  /** Every row lists a task of the state, and no two the same one. */
  ghost predicate ListsSome(rows: seq<Write<string>>, state: map<string, string>) {
    && (forall i | 0 <= i < |rows| :: rows[i] == Listed(Unlisted(rows[i])) && IsTask(state, Unlisted(rows[i])))
    && forall i, j | 0 <= i < j < |rows| :: rows[i].entity != rows[j].entity
  }

  ghost predicate ListsId(rows: seq<Write<string>>, id: string) {
    exists i :: 0 <= i < |rows| && rows[i].entity == id
  }

  lemma CodePointsDiffer(a: string, b: string)
    ensures CodePoints(a) == CodePoints(b) ==> a == b
  {
    if CodePoints(a) == CodePoints(b) {
      assert |a| == |CodePoints(a)| == |b|;
      forall i | 0 <= i < |a| ensures a[i] == b[i] { assert CodePoints(a)[i] == CodePoints(b)[i]; }
    }
  }

  lemma ListedAscend(rows: seq<Write<string>>, state: map<string, string>)
    requires ListsSome(rows, state)
    ensures Ascending(Sorted(rows)) && SameMembers(Sorted(rows), rows)
  {
    forall i, j | 0 <= i < j < |rows| ensures rows[i].key != rows[j].key {
      CodePointsDiffer(rows[i].entity, rows[j].entity);
    }
    SortedKeeps(rows);
  }

  method InOrder(state: map<string, string>) returns (tasks: seq<Task>)
    ensures forall t :: t in tasks <==> IsTask(state, t)
    ensures InTitleOrder(tasks)
  {
    var rest := state.Keys;
    var rows: seq<Write<string>> := [];
    while rest != {}
      invariant rest <= state.Keys && ListsSome(rows, state)
      invariant forall i | 0 <= i < |rows| :: rows[i].entity !in rest
      invariant forall id <- state.Keys - rest :: ListsId(rows, id)
      decreases rest
    {
      var id :| id in rest;
      ghost var before := rows;
      rows := rows + [Listed(Task(id, state[id]))];
      rest := rest - {id};
      assert rows[|before|].entity == id;
      forall other | other in state.Keys - rest ensures ListsId(rows, other) {
        if other != id {
          assert ListsId(before, other);
          var i :| 0 <= i < |before| && before[i].entity == other;
          assert rows[i].entity == other;
        }
      }
    }
    ListedAscend(rows, state);
    var sorted := Sorted(rows);
    tasks := seq(|sorted|, i requires 0 <= i < |sorted| => Unlisted(sorted[i]));
    SortedListsAll(rows, sorted, state, tasks);
  }

  lemma SortedListsAll(rows: seq<Write<string>>, sorted: seq<Write<string>>, state: map<string, string>,
                       tasks: seq<Task>)
    requires ListsSome(rows, state) && SameMembers(sorted, rows) && Ascending(sorted)
    requires forall id <- state :: ListsId(rows, id)
    requires |tasks| == |sorted| && forall i | 0 <= i < |sorted| :: tasks[i] == Unlisted(sorted[i])
    ensures InTitleOrder(tasks) && forall t :: t in tasks <==> IsTask(state, t)
  {
    forall i | 0 <= i < |tasks| ensures sorted[i] == Listed(tasks[i]) && IsTask(state, tasks[i]) {
      assert sorted[i] in sorted && sorted[i] in rows;
    }
    forall i, j | 0 <= i < j < |tasks| ensures Earlier(tasks[i], tasks[j]) { ListedInOrder(tasks[i], tasks[j]); }
    forall t | IsTask(state, t) ensures t in tasks {
      assert ListsId(rows, t.id);
      var i :| 0 <= i < |rows| && rows[i].entity == t.id;
      assert rows[i] in rows && rows[i] in sorted && Unlisted(rows[i]) == t;
      var j :| 0 <= j < |sorted| && sorted[j] == rows[i];
      assert tasks[j] == t;
    }
  }

  // ----- Durations -----

  const PHASES: map<string, int> := map["focus" := 25, "short_break" := 5, "long_break" := 15]

  datatype DurationOperation = DurationOperation(key: Key, phase: Json, durationMs: Json)

  function DurationWrite(o: DurationOperation): (w: Write<int>)
    ensures w.key == o.key
  {
    var phase := if o.phase.Str? then o.phase.s else "";
    if phase in PHASES && o.durationMs.Int? && 60_000 <= o.durationMs.n <= 10_800_000 && o.durationMs.n % 60_000 == 0
    then Write(o.key, phase, Put(o.durationMs.n)) else Write(o.key, phase, Nothing)
  }

  function DurationWrites(pending: seq<DurationOperation>): (writes: seq<Write<int>>)
    ensures |writes| == |pending| && forall i | 0 <= i < |writes| :: writes[i] == DurationWrite(pending[i])
  {
    seq(|pending|, i requires 0 <= i < |pending| => DurationWrite(pending[i]))
  }

  function CanonicalDurations(canonical: map<string, int>): map<string, int> {
    map phase | phase in PHASES :: if phase in canonical then canonical[phase] else PHASES[phase] * 60_000
  }

  predicate SetsPhase(w: Write<int>) {
    !w.effect.Remove? && (w.effect.Put? ==> w.entity in PHASES)
  }

  lemma SortedDurationsSetPhases(pending: seq<DurationOperation>)
    ensures forall i | 0 <= i < |Sorted(DurationWrites(pending))| :: SetsPhase(Sorted(DurationWrites(pending))[i])
  {
    var ordered := Sorted(DurationWrites(pending));
    SortedKeeps(DurationWrites(pending));
    forall i | 0 <= i < |ordered| ensures SetsPhase(ordered[i]) {
      assert ordered[i] in ordered && ordered[i] in DurationWrites(pending);
    }
  }

  lemma SortedDurationsStay(pending: seq<DurationOperation>, i: nat)
    requires i < |Sorted(DurationWrites(pending))|
    ensures !Sorted(DurationWrites(pending))[i].effect.Remove?
  {
    SortedDurationsSetPhases(pending);
    assert SetsPhase(Sorted(DurationWrites(pending))[i]);
  }

  /** A duration operation that counts: a known phase, and whole minutes from one to 180. */
  ghost predicate SetsDuration(o: DurationOperation, phase: string, ms: int) {
    && phase in {"focus", "short_break", "long_break"} && o.phase == Str(phase)
    && o.durationMs == Int(ms) && exists minutes :: 1 <= minutes <= 180 && ms == minutes * 60_000
  }

  ghost predicate IsLatestSetting(o: DurationOperation, pending: seq<DurationOperation>, phase: string, ms: int) {
    && o in pending && SetsDuration(o, phase, ms)
    && forall other <- pending | other != o && (exists n :: SetsDuration(other, phase, n)) ::
         Outranks(o.key, other.key)
  }

  function Minutes(phase: string): int {
    if phase == "focus" then 25 else if phase == "short_break" then 5 else 15
  }

  /** The latest operation that counts gave it, or without one the server or the default did. */
  ghost predicate IsDecidedDuration(canonical: map<string, int>, pending: seq<DurationOperation>, phase: string,
                                    ms: int) {
    || (exists o :: IsLatestSetting(o, pending, phase, ms))
    || ((forall o <- pending, n :: !SetsDuration(o, phase, n)) &&
        ms == if phase in canonical then canonical[phase] else Minutes(phase) * 60_000)
  }

  lemma SettingIsEffective(o: DurationOperation, phase: string)
    requires phase in PHASES
    ensures Effective(DurationWrite(o), phase) <==> exists ms :: SetsDuration(o, phase, ms)
    ensures forall ms | SetsDuration(o, phase, ms) :: DurationWrite(o) == Write(o.key, phase, Put(ms))
    ensures Effective(DurationWrite(o), phase) ==> o.durationMs.Int? && SetsDuration(o, phase, o.durationMs.n)
  {
    if Effective(DurationWrite(o), phase) {
      var minutes := o.durationMs.n / 60_000;
      assert o.durationMs.n == minutes * 60_000 && 1 <= minutes <= 180;
      assert SetsDuration(o, phase, o.durationMs.n);
    }
  }

  lemma DurationIsDecided(canonical: map<string, int>, pending: seq<DurationOperation>, phase: string)
    requires forall i, j | 0 <= i < j < |pending| :: pending[i].key != pending[j].key
    requires phase in PHASES && phase in Fold(CanonicalDurations(canonical), Sorted(DurationWrites(pending)))
    ensures IsDecidedDuration(canonical, pending, phase,
                              Fold(CanonicalDurations(canonical), Sorted(DurationWrites(pending)))[phase])
  {
    var writes, base := DurationWrites(pending), CanonicalDurations(canonical);
    LatestDecides(base, writes, phase);
    if HasWriter(writes, phase) {
      var w :| IsLatest(w, writes, phase);
      var i :| 0 <= i < |writes| && writes[i] == w;
      SettingIsEffective(pending[i], phase);
      LatestWriteIsLatestSetting(pending, phase, i);
    } else {
      forall o, n | o in pending ensures !SetsDuration(o, phase, n) {
        var k :| 0 <= k < |pending| && pending[k] == o;
        SettingIsEffective(o, phase);
        assert writes[k] in writes;
      }
    }
  }

  lemma LatestWriteIsLatestSetting(pending: seq<DurationOperation>, phase: string, i: nat)
    requires forall k, l | 0 <= k < l < |pending| :: pending[k].key != pending[l].key
    requires phase in PHASES && i < |pending| && IsLatest(DurationWrites(pending)[i], DurationWrites(pending), phase)
    requires pending[i].durationMs.Int? && SetsDuration(pending[i], phase, pending[i].durationMs.n)
    ensures IsLatestSetting(pending[i], pending, phase, pending[i].durationMs.n)
  {
    var writes := DurationWrites(pending);
    forall other | other in pending && other != pending[i] && (exists n :: SetsDuration(other, phase, n))
      ensures Outranks(pending[i].key, other.key)
    {
      var k :| 0 <= k < |pending| && pending[k] == other;
      SettingIsEffective(other, phase);
      assert writes[k] in writes && writes[k].key != writes[i].key;
    }
  }

  method ProjectDurations(canonical: map<string, int>, pending: seq<DurationOperation>)
    returns (durations: map<string, int>)
    ensures durations == Fold(CanonicalDurations(canonical), Sorted(DurationWrites(pending)))
    ensures durations.Keys == PHASES.Keys
    ensures (forall i, j | 0 <= i < j < |pending| :: pending[i].key != pending[j].key) ==>
              forall phase <- durations :: IsDecidedDuration(canonical, pending, phase, durations[phase])
  {
    var ordered := Sorted(DurationWrites(pending));
    durations := CanonicalDurations(canonical);
    for i := 0 to |ordered|
      invariant durations == Fold(CanonicalDurations(canonical), ordered[..i])
    {
      SortedDurationsStay(pending, i);
      if ordered[i].effect.Put? { durations := durations[ordered[i].entity := ordered[i].effect.value]; }
      FoldOneMore(CanonicalDurations(canonical), ordered, i);
    }
    assert ordered[..|ordered|] == ordered;
    SortedDurationsSetPhases(pending);
    FoldKeepsPhases(CanonicalDurations(canonical), ordered);
    if forall i, j | 0 <= i < j < |pending| :: pending[i].key != pending[j].key {
      forall phase | phase in durations ensures IsDecidedDuration(canonical, pending, phase, durations[phase]) {
        DurationIsDecided(canonical, pending, phase);
      }
    }
  }

  lemma {:induction false} FoldKeepsPhases(base: map<string, int>, writes: seq<Write<int>>)
    requires base.Keys == PHASES.Keys && forall i | 0 <= i < |writes| :: SetsPhase(writes[i])
    ensures Fold(base, writes).Keys == PHASES.Keys
  {
    if writes != [] { FoldKeepsPhases(base, writes[..|writes| - 1]); }
  }

  function OtherPhases(pending: seq<DurationOperation>, phase: Json): seq<DurationOperation> {
    if pending == [] then []
    else (if pending[0].phase == phase then [] else [pending[0]]) + OtherPhases(pending[1..], phase)
  }

  lemma DurationWritesOfParts(a: seq<DurationOperation>, b: seq<DurationOperation>)
    ensures DurationWrites(a + b) == DurationWrites(a) + DurationWrites(b)
  {
  }

  lemma WritesItsPhase(o: DurationOperation, phase: string)
    requires phase != ""
    ensures DurationWrite(o).entity == phase <==> o.phase == Str(phase)
    ensures DurationWrites([o]) == [DurationWrite(o)]
  {
  }

  lemma OtherPhasesOfFirst(first: DurationOperation, rest: seq<DurationOperation>, phase: Json)
    ensures OtherPhases([first] + rest, phase) ==
              if first.phase == phase then OtherPhases(rest, phase) else [first] + OtherPhases(rest, phase)
  {
    var pending := [first] + rest;
    assert pending[0] == first && pending[1..] == rest;
  }

  lemma {:induction false} OtherPhasesAreOthers(pending: seq<DurationOperation>, phase: string)
    requires phase != ""
    ensures DurationWrites(OtherPhases(pending, Str(phase))) == Others(DurationWrites(pending), phase)
  {
    if pending == [] {
      assert DurationWrites([]) == [];
    } else {
      var first, rest := pending[0], pending[1..];
      OtherPhasesAreOthers(rest, phase);
      assert pending == [first] + rest;
      WritesItsPhase(first, phase);
      OtherPhasesOfFirst(first, rest, Str(phase));
      DurationWritesOfParts([first], rest);
      DurationWritesOfParts([first], OtherPhases(rest, Str(phase)));
      OthersOfFirst(DurationWrite(first), DurationWrites(rest), phase);
    }
  }

  lemma OthersOfFirst<V(!new)>(first: Write<V>, rest: seq<Write<V>>, entity: string)
    ensures Others([first] + rest, entity) ==
              if first.entity == entity then Others(rest, entity) else [first] + Others(rest, entity)
  {
    var queue := [first] + rest;
    assert queue[0] == first && queue[1..] == rest;
  }

  /** The queue keeps one operation a phase; the ones a later valid one replaced were not seen anyway. */
  lemma ReplacedDurationProjectsAlike(canonical: map<string, int>, pending: seq<DurationOperation>,
                                      o: DurationOperation)
    requires DistinctKeys(DurationWrites(pending + [o])) && DurationWrite(o).effect.Put?
    requires forall other <- pending | other.phase == o.phase :: Before(other.key, o.key)
    ensures Fold(CanonicalDurations(canonical), Sorted(DurationWrites(pending + [o]))) ==
              Fold(CanonicalDurations(canonical), Sorted(DurationWrites(OtherPhases(pending, o.phase) + [o])))
  {
    var writes, w, others := DurationWrites(pending), DurationWrite(o), OtherPhases(pending, o.phase);
    assert DurationWrites(pending + [o]) == writes + [w];
    assert DurationWrites(others + [o]) == DurationWrites(others) + [w];
    OtherPhasesAreOthers(pending, o.phase.s);
    forall other | other in writes && other.entity == w.entity ensures Before(other.key, w.key) {
      var i :| 0 <= i < |writes| && writes[i] == other;
      assert pending[i] in pending;
    }
    ReplacingKeepsTheState(CanonicalDurations(canonical), writes, w);
  }

  // ----- Auto-start -----

  datatype AutoStartOperation = AutoStartOperation(key: Key, enabled: Json)

  const PREFERENCE := "autoStartBreaks"

  function AutoStartWrites(pending: seq<AutoStartOperation>): (writes: seq<Write<bool>>)
    ensures |writes| == |pending|
    ensures forall i | 0 <= i < |writes| ::
              && writes[i].key == pending[i].key && writes[i].entity == PREFERENCE
              && writes[i].effect == if pending[i].enabled.Bool? then Put(pending[i].enabled.b) else Nothing
  {
    seq(|pending|, i requires 0 <= i < |pending| =>
      Write(pending[i].key, PREFERENCE, if pending[i].enabled.Bool? then Put(pending[i].enabled.b) else Nothing))
  }

  predicate SetsPreference(w: Write<bool>) {
    !w.effect.Remove? && w.entity == PREFERENCE
  }

  lemma SortedPreferencesAgree(pending: seq<AutoStartOperation>)
    ensures forall i | 0 <= i < |Sorted(AutoStartWrites(pending))| ::
              SetsPreference(Sorted(AutoStartWrites(pending))[i])
  {
    var ordered := Sorted(AutoStartWrites(pending));
    SortedKeeps(AutoStartWrites(pending));
    forall i | 0 <= i < |ordered| ensures SetsPreference(ordered[i]) {
      assert ordered[i] in ordered && ordered[i] in AutoStartWrites(pending);
    }
  }

  method ProjectAutoStartBreaks(canonical: bool, pending: seq<AutoStartOperation>) returns (enabled: bool)
    ensures Fold(map[PREFERENCE := canonical], Sorted(AutoStartWrites(pending))) == map[PREFERENCE := enabled]
    ensures (forall i, j | 0 <= i < j < |pending| :: pending[i].key != pending[j].key) ==>
              IsDecidedPreference(canonical, pending, enabled)
  {
    var ordered := Sorted(AutoStartWrites(pending));
    SortedPreferencesAgree(pending);
    enabled := canonical;
    for i := 0 to |ordered|
      invariant Fold(map[PREFERENCE := canonical], ordered[..i]) == map[PREFERENCE := enabled]
    {
      assert SetsPreference(ordered[i]);
      if ordered[i].effect.Put? { enabled := ordered[i].effect.value; }
      FoldOneMore(map[PREFERENCE := canonical], ordered, i);
    }
    assert ordered[..|ordered|] == ordered;
    if forall i, j | 0 <= i < j < |pending| :: pending[i].key != pending[j].key {
      PreferenceIsDecided(canonical, pending, enabled);
    }
  }

  /** The latest operation with a truth value gave it, or without one the server did. */
  ghost predicate IsDecidedPreference(canonical: bool, pending: seq<AutoStartOperation>, enabled: bool) {
    || (exists o <- pending ::
          && o.enabled == Bool(enabled)
          && forall other <- pending | other.enabled.Bool? && other != o :: Outranks(o.key, other.key))
    || ((forall o <- pending :: !o.enabled.Bool?) && enabled == canonical)
  }

  lemma PreferenceIsDecided(canonical: bool, pending: seq<AutoStartOperation>, enabled: bool)
    requires forall i, j | 0 <= i < j < |pending| :: pending[i].key != pending[j].key
    requires Fold(map[PREFERENCE := canonical], Sorted(AutoStartWrites(pending))) == map[PREFERENCE := enabled]
    ensures IsDecidedPreference(canonical, pending, enabled)
  {
    var writes, base := AutoStartWrites(pending), map[PREFERENCE := canonical];
    LatestDecides(base, writes, PREFERENCE);
    if HasWriter(writes, PREFERENCE) {
      var w :| IsLatest(w, writes, PREFERENCE);
      var i :| 0 <= i < |writes| && writes[i] == w;
      assert pending[i] in pending && pending[i].enabled == Bool(enabled);
      forall other | other in pending && other.enabled.Bool? && other != pending[i]
        ensures Outranks(pending[i].key, other.key)
      {
        var k :| 0 <= k < |pending| && pending[k] == other;
        assert writes[k] in writes && writes[k].key != writes[i].key;
      }
    } else {
      forall o | o in pending ensures !o.enabled.Bool? {
        var k :| 0 <= k < |pending| && pending[k] == o;
        assert writes[k] in writes;
      }
    }
  }
}
