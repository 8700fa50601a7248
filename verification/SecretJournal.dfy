/** Secrets changed inside a database transaction, put back when it fails. */
module SecretJournal {
  import opened Prelude

  type Secret = seq<int>
  type Secrets = map<string, Secret>

  function Put(secrets: Secrets, key: string, value: Option<Secret>): (r: Secrets)
    ensures At(r, key) == value
    ensures forall other | other != key :: At(r, other) == At(secrets, other)
  {
    if value.Some? then secrets[key := value.value] else secrets - {key}
  }

  // ----- What a journal and its store have come to -----

  datatype Journalled =
    Journalled(secrets: Secrets, snapshots: map<string, Option<Secret>>, mutated: map<string, Option<Secret>>)

  /** A journalled save or delete: how the provider answered, and whether it took effect unanswered. */
  datatype Call = Call(key: string, value: Option<Secret>, ok: bool, effective: bool)

  function Did(j: Journalled, c: Call): Journalled {
    var seen := Seen(j, c.key);
    Journalled(if c.ok || c.effective then Put(j.secrets, c.key, c.value) else j.secrets,
               seen.snapshots,
               if c.ok then j.mutated[c.key := c.value] else j.mutated)
  }

  function Seen(j: Journalled, key: string): Journalled {
    if key in j.snapshots then j else j.(snapshots := j.snapshots[key := At(j.secrets, key)])
  }

  function AfterCalls(j: Journalled, calls: seq<Call>): Journalled {
    if calls == [] then j else Did(AfterCalls(j, calls[..|calls| - 1]), calls[|calls| - 1])
  }

  /** What rolling back leaves of a key when nothing fails. */
  function Target(j: Journalled, key: string): Option<Secret> {
    if key !in j.snapshots || (key in j.mutated && At(j.secrets, key) != j.mutated[key]) then At(j.secrets, key)
    else j.snapshots[key]
  }

  function RolledBack(j: Journalled): (secrets: Secrets)
    ensures forall key :: At(secrets, key) == Target(j, key)
  {
    map key | key in j.secrets.Keys + j.snapshots.Keys && Target(j, key).Some? :: Target(j, key).value
  }

  /** A failed call changed the key after all, away from both the journal's value and the first one. */
  predicate Spoiled(j: Journalled, initial: Secrets, key: string) {
    key in j.mutated && At(j.secrets, key) != j.mutated[key] && At(j.secrets, key) != At(initial, key)
  }

  ghost predicate Remembers(j: Journalled, initial: Secrets) {
    && j.mutated.Keys <= j.snapshots.Keys
    && (forall key | key !in j.snapshots :: At(j.secrets, key) == At(initial, key))
    && (forall key <- j.snapshots :: j.snapshots[key] == At(initial, key))
  }

  /** Rolling back would bring back the store the journal was entered with. */
  ghost predicate Restores(j: Journalled, initial: Secrets) {
    && (forall key | key !in j.snapshots :: At(j.secrets, key) == At(initial, key))
    && (forall key <- j.snapshots :: j.snapshots[key] == At(initial, key))
    && (forall key <- j.mutated :: j.mutated[key] == At(j.secrets, key))
  }

  lemma CallSpoilsExactlyOneWay(j: Journalled, initial: Secrets, c: Call)
    requires Restores(j, initial) && j.mutated.Keys <= j.snapshots.Keys
    ensures Restores(Did(j, c), initial) <==>
              c.ok || c.key !in j.mutated || At(Did(j, c).secrets, c.key) == At(j.secrets, c.key)
  {
    var after := Did(j, c);
    DidElsewhere(j, c);
    if c.ok || c.key !in j.mutated || At(after.secrets, c.key) == At(j.secrets, c.key) {
      forall key | key in after.mutated ensures after.mutated[key] == At(after.secrets, key) {
        assert key != c.key ==> At(after.secrets, key) == At(j.secrets, key);
      }
    } else {
      assert after.mutated[c.key] == j.mutated[c.key] == At(j.secrets, c.key);
    }
  }

  lemma DidElsewhere(j: Journalled, c: Call)
    ensures var after := Did(j, c);
            && c.key in after.snapshots && j.snapshots.Keys <= after.snapshots.Keys
            && (c.key !in j.snapshots ==> after.snapshots[c.key] == At(j.secrets, c.key))
            && (forall key <- j.snapshots :: after.snapshots[key] == j.snapshots[key])
            && (forall key | key != c.key :: At(after.secrets, key) == At(j.secrets, key))
            && (c.ok ==> At(after.secrets, c.key) == c.value)
  {
  }

  lemma {:induction false} CallsAreRemembered(initial: Secrets, calls: seq<Call>)
    ensures Remembers(AfterCalls(Journalled(initial, map[], map[]), calls), initial)
  {
    if calls != [] {
      CallsAreRemembered(initial, calls[..|calls| - 1]);
    }
  }

  /** After any calls whatever, rolling back brings the whole store back if and only if no key is spoiled. */
  lemma RollbackRestoresExactlyTheUnspoiled(initial: Secrets, calls: seq<Call>)
    ensures var j := AfterCalls(Journalled(initial, map[], map[]), calls);
            RolledBack(j) == initial <==> forall key :: !Spoiled(j, initial, key)
  {
    var j := AfterCalls(Journalled(initial, map[], map[]), calls);
    CallsAreRemembered(initial, calls);
    var back := RolledBack(j);
    if forall key :: !Spoiled(j, initial, key) {
      forall key ensures At(back, key) == At(initial, key) {
        assert At(back, key) == Target(j, key) && !Spoiled(j, initial, key);
      }
      SameMaps(back, initial);
    } else {
      var key :| Spoiled(j, initial, key);
      assert At(back, key) == Target(j, key);
    }
  }

  /** The last call on the key that was answered; -1 if none was. */
  function LastAnswered(calls: seq<Call>, key: string): (i: int)
    ensures -1 <= i < |calls|
    ensures i >= 0 ==> calls[i].key == key && calls[i].ok
    ensures forall n | i < n < |calls| && calls[n].key == key :: !calls[n].ok
  {
    if calls == [] then -1
    else
      var last := calls[|calls| - 1];
      if last.key == key && last.ok then |calls| - 1 else LastAnswered(calls[..|calls| - 1], key)
  }

  /** The last call on the key that took effect, answered or not; -1 if none did. */
  function LastEffective(calls: seq<Call>, key: string): (i: int)
    ensures -1 <= i < |calls|
    ensures i >= 0 ==> calls[i].key == key && (calls[i].ok || calls[i].effective)
    ensures forall n | i < n < |calls| && calls[n].key == key :: !calls[n].ok && !calls[n].effective
  {
    if calls == [] then -1
    else
      var last := calls[|calls| - 1];
      if last.key == key && (last.ok || last.effective) then |calls| - 1
      else LastEffective(calls[..|calls| - 1], key)
  }

  /**
   * A call on the key that failed and took effect after the last one that was answered, and left
   * another value than that one and than the first.
   */
  predicate LeftBehind(calls: seq<Call>, initial: Secrets, key: string) {
    var answered, effective := LastAnswered(calls, key), LastEffective(calls, key);
    && 0 <= answered < effective
    && calls[effective].value != calls[answered].value && calls[effective].value != At(initial, key)
  }

  lemma {:induction false} CallsDecide(initial: Secrets, calls: seq<Call>, key: string)
    ensures var j := AfterCalls(Journalled(initial, map[], map[]), calls);
            && (key in j.mutated <==> LastAnswered(calls, key) >= 0)
            && (key in j.mutated ==> j.mutated[key] == calls[LastAnswered(calls, key)].value)
            && At(j.secrets, key) ==
                 if LastEffective(calls, key) < 0 then At(initial, key) else calls[LastEffective(calls, key)].value
  {
    if calls != [] {
      var rest := calls[..|calls| - 1];
      CallsDecide(initial, rest, key);
      DidElsewhere(AfterCalls(Journalled(initial, map[], map[]), rest), calls[|calls| - 1]);
    }
  }

  lemma AnsweredCallsTakeEffect(calls: seq<Call>, key: string)
    ensures LastAnswered(calls, key) <= LastEffective(calls, key)
    ensures LastAnswered(calls, key) < LastEffective(calls, key) ==>
              !calls[LastEffective(calls, key)].ok && calls[LastEffective(calls, key)].effective
  {
  }

  /** The same on the calls alone: what was answered, and what took effect unanswered after it. */
  lemma RollbackRestoresExactlyUnlessLeftBehind(initial: Secrets, calls: seq<Call>)
    ensures RolledBack(AfterCalls(Journalled(initial, map[], map[]), calls)) == initial <==>
              forall key :: !LeftBehind(calls, initial, key)
  {
    var j := AfterCalls(Journalled(initial, map[], map[]), calls);
    RollbackRestoresExactlyTheUnspoiled(initial, calls);
    forall key ensures Spoiled(j, initial, key) <==> LeftBehind(calls, initial, key) {
      CallsDecide(initial, calls, key);
      AnsweredCallsTakeEffect(calls, key);
    }
  }

  /** Without a call that fails and takes effect, everything comes back. */
  lemma TruthfulFailuresAreRolledBack(initial: Secrets, calls: seq<Call>)
    requires forall c <- calls :: c.ok || !c.effective
    ensures RolledBack(AfterCalls(Journalled(initial, map[], map[]), calls)) == initial
  {
    RollbackRestoresExactlyUnlessLeftBehind(initial, calls);
    forall key ensures !LeftBehind(calls, initial, key) {
      AnsweredCallsTakeEffect(calls, key);
      if LastEffective(calls, key) >= 0 { assert calls[LastEffective(calls, key)] in calls; }
    }
  }

  /** A key is saved, then saved again by a call that fails and takes effect: the second value stays. */
  lemma UncertainSecondSaveStays(key: string, first: Secret, second: Secret)
    requires first != second
    ensures var calls := [Call(key, Some(first), true, false), Call(key, Some(second), false, true)];
            At(RolledBack(AfterCalls(Journalled(map[], map[], map[]), calls)), key) == Some(second)
  {
    var start := Journalled(map[], map[], map[]);
    var calls := [Call(key, Some(first), true, false), Call(key, Some(second), false, true)];
    assert calls[..1] == [calls[0]] && calls[..1][..0] == [];
    assert AfterCalls(start, calls[..1]) == Did(start, calls[0]);
  }

  /** The external store: a call may fail, and a failed mutation may have taken effect. */
  class SecretStore {
    var secrets: Secrets
    /** Loads never fail. */
    const readable: bool
    /** Nor do saves and deletes. */
    const writable: bool
    /** The keys whose save or delete failed, in order. */
    ghost var refused: seq<string>

    constructor (secrets: Secrets, readable: bool, writable: bool)
      ensures this.secrets == secrets && this.readable == readable && this.writable == writable && refused == []
    {
      this.secrets, this.readable, this.writable := secrets, readable, writable;
      refused := [];
    }

    method Load(key: string) returns (value: Option<Option<Secret>>)
      ensures value.Some? ==> value.value == At(secrets, key)
      ensures readable ==> value.Some?
    {
      value := Some(At(secrets, key));
      if !readable {
        if * { value := None; }
      }
    }

    /** `save`, or `delete` for no value. */
    method Mutate(key: string, value: Option<Secret>) returns (ok: bool)
      modifies this
      ensures secrets == old(secrets) || secrets == Put(old(secrets), key, value)
      ensures ok ==> secrets == Put(old(secrets), key, value)
      ensures refused == old(refused) + if ok then [] else [key]
      ensures writable ==> ok
    {
      ok := *;
      if writable { ok := true; }
      var effective := ok;
      if !ok { effective := *; }
      if effective { secrets := Put(secrets, key, value); }
      if !ok { refused := refused + [key]; }
    }
  }

  class SecretMutationJournal {
    const store: SecretStore
    var snapshots: map<string, Option<Secret>>
    var mutated: map<string, Option<Secret>>
    var order: seq<string>
    /** The store when the journal was entered. */
    ghost const initial: Secrets

    constructor (store: SecretStore)
      ensures Valid() && Restorable() && this.store == store && initial == store.secrets && order == []
    {
      this.store, initial := store, store.secrets;
      snapshots, mutated, order := map[], map[], [];
    }

    ghost predicate Valid()
      reads this
    {
      && mutated.Keys <= snapshots.Keys
      && (forall key :: key in order <==> key in snapshots)
      && forall i, j | 0 <= i < j < |order| :: order[i] != order[j]
    }

    ghost function State(): Journalled
      reads this, store
    {
      Journalled(store.secrets, snapshots, mutated)
    }

    ghost predicate Restorable()
      reads this, store
    {
      Restores(State(), initial)
    }

    method Watch(key: string) returns (ok: bool)
      requires Valid()
      modifies this
      ensures Valid() && mutated == old(mutated)
      ensures State() == if ok then Seen(old(State()), key) else old(State())
      ensures ok ==> key in snapshots
      ensures !ok ==> order == old(order)
      ensures key in old(snapshots) || store.readable ==> ok
      ensures old(Restorable()) ==> Restorable()
    {
      if key in snapshots { return true; }
      var value := store.Load(key);
      if value.None? { return false; }
      snapshots := snapshots[key := value.value];
      order := order + [key];
      ok := true;
    }

    /**
     * `save` and `delete`. Only one thing spoils the rollback: a call that fails on a key the
     * journal had already changed, and changes it all the same.
     */
    method Mutate(key: string, value: Option<Secret>) returns (ok: bool)
      requires Valid()
      modifies this, store
      ensures Valid()
      // A failure is the provider's, of the lookup or of the call.
      ensures ok ==> store.refused == old(store.refused)
      ensures !ok && (key in old(snapshots) || store.readable) ==> store.refused == old(store.refused) + [key]
      ensures store.readable && store.writable ==> ok
      ensures ok ==> State() == Did(old(State()), Call(key, value, true, true))
      ensures !ok ==>
                || State() == old(State())
                || exists effective: bool :: State() == Did(old(State()), Call(key, value, false, effective))
      ensures old(Restorable()) ==>
                (Restorable() <==> ok || key !in old(mutated) || At(store.secrets, key) == old(At(store.secrets, key)))
    {
      var watched := Watch(key);
      if !watched { return false; }
      ghost var before := old(State());
      ghost var held := store.secrets;
      ok := store.Mutate(key, value);
      ghost var call := Call(key, value, ok, ok || store.secrets != held);
      if ok { mutated := mutated[key := value]; }
      assert State() == Did(before, call);
      if Restores(before, initial) { CallSpoilsExactlyOneWay(before, initial, call); }
    }

    /** Whether the rollback finds the key as the journal left it. */
    ghost predicate AsLeft(secrets: Secrets, key: string)
      reads this
    {
      key in mutated ==> At(secrets, key) == mutated[key]
    }

    method RestoreKey(key: string) returns (ok: bool)
      requires Valid() && key in snapshots
      modifies store
      ensures store.secrets in {old(store.secrets), Put(old(store.secrets), key, snapshots[key])}
      ensures ok && AsLeft(old(store.secrets), key) ==> store.secrets == Put(old(store.secrets), key, snapshots[key])
      ensures store.refused == old(store.refused) + if ok then [] else [key]
      ensures store.writable ==> ok
      ensures store.readable && !AsLeft(old(store.secrets), key) ==> ok && store.secrets == old(store.secrets)
    {
      var previous := snapshots[key];
      if key in mutated {
        var expected := mutated[key];
        var loaded := store.Load(key);
        var current := if loaded.Some? then loaded.value else expected;
        if current != expected { return true; }
      }
      ok := store.Mutate(key, previous);
    }

    /** Every watched key is tried, last watched first. */
    method RestoreKeys() returns (failures: nat)
      requires Valid()
      modifies store
      ensures forall key | key !in snapshots :: At(store.secrets, key) == old(At(store.secrets, key))
      ensures forall key <- snapshots :: At(store.secrets, key) in {old(At(store.secrets, key)), snapshots[key]}
      ensures old(store.refused) <= store.refused && failures == |store.refused| - |old(store.refused)|
      ensures store.writable ==> failures == 0
      ensures var refused := store.refused[|old(store.refused)|..];
              forall key <- snapshots | AsLeft(old(store.secrets), key) && key !in refused ::
                At(store.secrets, key) == snapshots[key]
      ensures store.readable ==>
                forall key <- snapshots | !AsLeft(old(store.secrets), key) ::
                  At(store.secrets, key) == old(At(store.secrets, key))
    {
      failures := 0;
      ghost var before, refused := store.secrets, store.refused;
      for i := |order| downto 0
        invariant forall key | key !in order[i..] :: At(store.secrets, key) == At(before, key)
        invariant forall key <- order[i..] :: At(store.secrets, key) in {At(before, key), snapshots[key]}
        invariant refused <= store.refused && failures == |store.refused| - |refused|
        invariant store.writable ==> failures == 0
        invariant forall key <- order[i..] | AsLeft(before, key) && key !in store.refused[|refused|..] ::
                    At(store.secrets, key) == snapshots[key]
        invariant store.readable ==>
                    forall key <- order[i..] | !AsLeft(before, key) :: At(store.secrets, key) == At(before, key)
      {
        var key := order[i];
        assert key !in order[i + 1..];
        ghost var earlier := store.refused;
        var ok := RestoreKey(key);
        assert store.refused[|refused|..] == earlier[|refused|..] + if ok then [] else [key];
        if !ok { failures := failures + 1; }
        assert order[i..] == [key] + order[i + 1..];
      }
      assert order[0..] == order;
    }

    /** Leaving the journal after an error. */
    method Rollback() returns (failures: nat)
      requires Valid()
      modifies store
      // Keys nobody watched are left alone; the others get their old value back or keep theirs.
      ensures forall key | key !in snapshots :: At(store.secrets, key) == old(At(store.secrets, key))
      ensures forall key <- snapshots :: At(store.secrets, key) in {old(At(store.secrets, key)), snapshots[key]}
      // What the journal changed comes back, what somebody else changed since stays.
      ensures old(store.refused) <= store.refused && failures == |store.refused| - |old(store.refused)|
      ensures store.writable ==> failures == 0
      ensures var refused := store.refused[|old(store.refused)|..];
              forall key <- snapshots | AsLeft(old(store.secrets), key) && key !in refused ::
                At(store.secrets, key) == snapshots[key]
      ensures store.readable ==>
                forall key <- snapshots | !AsLeft(old(store.secrets), key) ::
                  At(store.secrets, key) == old(At(store.secrets, key))
      ensures failures == 0 && store.readable ==> store.secrets == RolledBack(old(State()))
      // With a provider that answers, no condition on the outcome is left.
      ensures store.readable && store.writable ==> store.secrets == RolledBack(old(State()))
      ensures store.writable && old(Restorable()) ==> store.secrets == initial
      ensures failures == 0 && old(Restorable()) ==> store.secrets == initial
    {
      ghost var before := State();
      failures := RestoreKeys();
      if failures == 0 && Restores(before, initial) {
        forall key ensures At(store.secrets, key) == At(initial, key) {
          if key in snapshots { assert AsLeft(before.secrets, key); }
        }
        SameMaps(store.secrets, initial);
      }
      if failures == 0 && store.readable {
        forall key ensures At(store.secrets, key) == At(RolledBack(before), key) {
          if key in snapshots { assert AsLeft(before.secrets, key) || !AsLeft(before.secrets, key); }
        }
        SameMaps(store.secrets, RolledBack(before));
      }
    }
  }
}
