/** What every run of the credential machine keeps, and the two places where a run can lose it. */
module CredentialSafety {
  import opened Prelude
  import opened CredentialModel

  lemma AfterExtends(w: World, log: seq<Action>, a: Action)
    ensures After(w, log + [a]) == Apply(After(w, log), a)
    ensures Legal(w, log + [a]) <==> Legal(w, log) && Guard(After(w, log), a)
  {
  }

  /** At every moment of the run, its beginning and its end included. */
  ghost predicate Always(w: World, log: seq<Action>, holds: World -> bool) {
    holds(After(w, log)) && (log == [] || Always(w, log[..|log| - 1], holds))
  }

  lemma {:induction false} AlwaysHolds(w: World, log: seq<Action>, holds: World -> bool, k: nat)
    requires Always(w, log, holds) && k <= |log|
    ensures holds(After(w, log[..k]))
    decreases |log|
  {
    if k < |log| {
      AlwaysHolds(w, log[..|log| - 1], holds, k);
      assert log[..k] == log[..|log| - 1][..k];
    } else {
      assert log[..k] == log;
    }
  }

  // ----- The keyring and the identity file come from one token response -----

  /** With no journal to replay, a keyring secret and the identity file share one response. */
  ghost predicate SameResponse(w: World) {
    w.journal.visible.None? && w.secret.Some? ==>
      && w.writer.Some?
      && w.secret.value == StoredOf(w.writer.value)
      && Named(w.record.visible) == Some(IdentityOf(w.writer.value))
  }

  ghost predicate RecordsName(w: World, c: Commit) {
    forall r <- w.record.onDisk :: Named(r) == Some(IdentityOf(c))
  }

  /** Every world a power loss may leave. */
  ghost predicate SurvivesPowerLoss(w: World) {
    forall j <- w.journal.onDisk, t <- w.tombstone.onDisk, r <- w.record.onDisk, m <- w.marker.onDisk ::
      SameResponse(Apply(w, PowerLost(j, t, r, m)))
  }

  /** The same in a form that steps keep: also for the keyring as a pending journal found it. */
  ghost predicate Sound(w: World) {
    && WellFormed(w)
    && (w.secret.Some? ==> w.writer.Some? && w.secret.value == StoredOf(w.writer.value))
    && ((None in w.journal.onDisk || w.untouched) && w.secret.Some? ==> RecordsName(w, w.writer.value))
  }

  lemma SoundSurvives(w: World)
    requires Sound(w)
    ensures SameResponse(w) && SurvivesPowerLoss(w)
  {
    assert w.record.visible in w.record.onDisk;
  }

  /**
   * What the code does not check before it writes the keyring: that the journal it replays cannot
   * be lost, or that every identity file that may be left already names the response.
   */
  ghost predicate SafeReplay(w: World, a: Action) {
    a.SecretSaved? && w.journal.visible.Some? ==>
      None !in w.journal.onDisk || RecordsName(w, w.journal.visible.value)
  }

  ghost predicate SafeReplays(w: World, log: seq<Action>) {
    log == [] ||
    (SafeReplays(w, log[..|log| - 1]) && SafeReplay(After(w, log[..|log| - 1]), log[|log| - 1]))
  }

  lemma StepKeepsSound(w: World, a: Action)
    requires Sound(w) && Guard(w, a) && SafeReplay(w, a)
    ensures Sound(Apply(w, a))
  {
  }

  /**
   * Exactly when a step keeps the credentials together under any power loss. For every step but
   * the keyring write of a replay the condition is true.
   */
  lemma StepIsSafeExactlyWhenReplayIs(w: World, a: Action)
    requires Sound(w) && Guard(w, a)
    ensures SurvivesPowerLoss(Apply(w, a)) <==> SafeReplay(w, a)
  {
    if SafeReplay(w, a) {
      StepKeepsSound(w, a);
      SoundSurvives(Apply(w, a));
    } else {
      var r :| r in w.record.onDisk && Named(r) != Some(IdentityOf(w.journal.visible.value));
      assert !SameResponse(Apply(Apply(w, a), PowerLost(None, w.tombstone.visible, r, w.marker.visible)));
    }
  }

  lemma {:induction false} SafeRunsStaySound(w: World, log: seq<Action>)
    requires Sound(w) && Legal(w, log) && SafeReplays(w, log)
    ensures Sound(After(w, log))
  {
    if log != [] {
      SafeRunsStaySound(w, log[..|log| - 1]);
      StepKeepsSound(After(w, log[..|log| - 1]), log[|log| - 1]);
    }
  }

  /** At no moment of a run would a power loss split the credentials. */
  ghost predicate NeverSplits(w: World, log: seq<Action>) {
    Always(w, log, SurvivesPowerLoss)
  }

  /**
   * Over every run of saves, replays, clears, deletions, failing calls and power losses at any
   * step: the secret and the identity file come from one response at every moment, whatever a
   * power loss then leaves, if and only if every replay wrote the keyring safely.
   */
  lemma {:induction false} CredentialsAgreeOverEveryRun(w: World, log: seq<Action>)
    requires Sound(w) && Legal(w, log)
    ensures SafeReplays(w, log) <==> NeverSplits(w, log)
    ensures SafeReplays(w, log) ==> SameResponse(After(w, log))
  {
    SoundSurvives(w);
    if log != [] {
      var prefix := log[..|log| - 1];
      CredentialsAgreeOverEveryRun(w, prefix);
      if SafeReplays(w, prefix) {
        SafeRunsStaySound(w, prefix);
        StepIsSafeExactlyWhenReplayIs(After(w, prefix), log[|log| - 1]);
      }
    }
    if SafeReplays(w, log) {
      SafeRunsStaySound(w, log);
      SoundSurvives(After(w, log));
    }
  }

  ghost predicate NoPowerLoss(log: seq<Action>) {
    forall a <- log :: !a.PowerLost?
  }

  /** What is visible agrees; says nothing about what a power loss would leave. */
  ghost predicate VisiblySound(w: World) {
    && SameResponse(w)
    && (w.untouched && w.secret.Some? ==>
          && w.writer.Some? && w.secret.value == StoredOf(w.writer.value)
          && Named(w.record.visible) == Some(IdentityOf(w.writer.value)))
    && (!w.untouched && w.journal.visible.Some? ==>
          w.secret == Some(StoredOf(w.journal.visible.value)) && w.writer == w.journal.visible)
  }

  /** As long as power stays on, no condition is needed: processes may die at any step. */
  lemma {:induction false} CredentialsAgreeWhilePowerStaysOn(w: World, log: seq<Action>)
    requires WellFormed(w) && VisiblySound(w) && Legal(w, log) && NoPowerLoss(log)
    ensures WellFormed(After(w, log)) && VisiblySound(After(w, log))
  {
    if log != [] {
      CredentialsAgreeWhilePowerStaysOn(w, log[..|log| - 1]);
      var before, a := After(w, log[..|log| - 1]), log[|log| - 1];
      assert !a.PowerLost?;
      StaysWellFormed(before, a);
      if a.JournalRemoved? && !before.untouched {
        assert before.record.visible == Active(IdentityOf(before.journal.visible.value));
      }
    }
  }

  const OLD_RESPONSE := TokenResponse(1, 2, 10)
  const OLD_IDENTITY := Identity(0, 1, 2)
  const NEW_RESPONSE := TokenResponse(3, 4, 20)

  /** Signed in with the old response, everything synced. */
  const SIGNED_IN: World :=
    World(Entry(None, {None}), Entry(false, {false}), Entry(Active(OLD_IDENTITY), {Active(OLD_IDENTITY)}),
          Entry(None, {None}), Some(Stored(0, 2, 10)), Some(Commit(0, OLD_RESPONSE)), false)

  lemma Taken(w: World, log: seq<Action>, a: Action) returns (longer: seq<Action>)
    requires Legal(w, log) && Guard(After(w, log), a)
    ensures Legal(w, longer) && After(w, longer) == Apply(After(w, log), a)
  {
    AfterExtends(w, log, a);
    longer := log + [a];
  }

  /**
   * The journal is put in place but its directory sync fails; the next call replays it without
   * syncing; power fails after the keyring write and takes the journal with it.
   */
  lemma UnsyncedReplayCanSplitCredentials() returns (log: seq<Action>)
    ensures Sound(SIGNED_IN) && Legal(SIGNED_IN, log) && !SameResponse(After(SIGNED_IN, log))
  {
    log := Taken(SIGNED_IN, [], JournalWritten(Commit(0, NEW_RESPONSE)));
    log := Taken(SIGNED_IN, log, SecretSaved);
    log := Taken(SIGNED_IN, log, PowerLost(None, false, SIGNED_IN.record.visible, None));
  }

  // ----- Replay -----

  ghost predicate ReplayStep(w: World, a: Action) {
    && Guard(w, a)
    && (a.SecretSaved? || a.TombstoneRemoved? || a.DirectorySynced? ||
        (a.RecordWritten? && a.doc.Active?) ||
        (a.JournalRemoved? && !w.untouched))
  }

  ghost predicate ReplaySteps(w: World, log: seq<Action>) {
    log == [] ||
    (ReplaySteps(w, log[..|log| - 1]) && ReplayStep(After(w, log[..|log| - 1]), log[|log| - 1]))
  }

  /** The whole replay, nothing failing. */
  function Replay(w: World): World
    requires w.journal.visible.Some?
  {
    var c := w.journal.visible.value;
    After(w, [SecretSaved, TombstoneRemoved, DirectorySynced,
              RecordWritten(Active(IdentityOf(c))), DirectorySynced, JournalRemoved, DirectorySynced])
  }

  lemma ReplayUnfolds(w: World)
    requires w.journal.visible.Some?
    ensures
      var c := w.journal.visible.value;
      Replay(w) == World(Entry(None, {None}), Entry(false, {false}),
                         Entry(Active(IdentityOf(c)), {Active(IdentityOf(c))}), w.marker.Synced(),
                         Some(StoredOf(c)), Some(c), false)
  {
    var c := w.journal.visible.value;
    var l1 := [SecretSaved];
    var l2 := l1 + [TombstoneRemoved];
    var l3 := l2 + [DirectorySynced];
    var l4 := l3 + [RecordWritten(Active(IdentityOf(c)))];
    var l5 := l4 + [DirectorySynced];
    var l6 := l5 + [JournalRemoved];
    assert [] + [SecretSaved] == l1;
    AfterExtends(w, [], SecretSaved);
    AfterExtends(w, l1, TombstoneRemoved);
    AfterExtends(w, l2, DirectorySynced);
    AfterExtends(w, l3, RecordWritten(Active(IdentityOf(c))));
    AfterExtends(w, l4, DirectorySynced);
    AfterExtends(w, l5, JournalRemoved);
    AfterExtends(w, l6, DirectorySynced);
    assert l6 + [DirectorySynced] ==
           [SecretSaved, TombstoneRemoved, DirectorySynced,
            RecordWritten(Active(IdentityOf(c))), DirectorySynced, JournalRemoved, DirectorySynced];
  }

  lemma ReplayStepKeepsRecovered(w: World, a: Action)
    requires WellFormed(w) && ReplayStep(w, a)
    ensures Recovered(Apply(w, a)) == Recovered(w) && WellFormed(Apply(w, a))
    ensures Apply(w, a).journal.visible.Some? ==>
              w.journal.visible.Some? && Replay(Apply(w, a)).(marker := w.marker) == Replay(w).(marker := w.marker)
  {
    StaysWellFormed(w, a);
    if Apply(w, a).journal.visible.Some? {
      ReplayUnfolds(w);
      ReplayUnfolds(Apply(w, a));
    }
  }

  /**
   * However often replay is cut short at whatever step, finishing it gives what one uninterrupted
   * replay would have given, and recovery never means anything else in between.
   */
  lemma {:induction false} InterruptedReplaysAgree(w: World, log: seq<Action>)
    requires WellFormed(w) && w.journal.visible.Some? && ReplaySteps(w, log)
    ensures WellFormed(After(w, log))
    ensures Recovered(After(w, log)) == Recovered(w) == Recovered(Replay(w))
    ensures After(w, log).journal.visible.Some? ==>
              Replay(After(w, log)).(marker := w.marker) == Replay(w).(marker := w.marker)
  {
    ReplayUnfolds(w);
    if log != [] {
      InterruptedReplaysAgree(w, log[..|log| - 1]);
      ReplayStepKeepsRecovered(After(w, log[..|log| - 1]), log[|log| - 1]);
    }
  }

  // ----- Sign-out -----

  ghost predicate SignedOutForGood(w: World) {
    w.journal.onDisk == {None} && w.tombstone.onDisk == {true} && WellFormed(w)
  }

  /**
   * Once the tombstone is durable, nothing can be loaded until a save writes a journal, whatever
   * is still in the keyring and however often power is lost.
   */
  lemma {:induction false} SignedOutUntilNextSave(w: World, log: seq<Action>)
    requires SignedOutForGood(w) && Legal(w, log)
    requires forall a <- log :: !a.JournalWritten?
    ensures SignedOutForGood(After(w, log)) && Loadable(Recovered(After(w, log))) == None
  {
    if log != [] {
      SignedOutUntilNextSave(w, log[..|log| - 1]);
      assert log[|log| - 1] in log;
      StaysWellFormed(After(w, log[..|log| - 1]), log[|log| - 1]);
    }
  }

  /** The directory sync that follows the tombstone write is what makes sign-out permanent. */
  lemma TombstoneSyncSignsOutForGood(w: World)
    requires WellFormed(w) && Guard(w, TombstoneWritten)
    ensures SignedOutForGood(Apply(Apply(w, TombstoneWritten), DirectorySynced))
  {
  }

  // ----- Confirmed account deletion -----

  ghost predicate DeletionFinished(w: World) {
    w.tombstone.onDisk == {true} && w.secret.None? && w.record.visible.Cleared?
  }

  /** The deletion of `id` was confirmed: every record that may be left still says so, or is done. */
  ghost predicate DeletionOwed(w: World, id: Identity) {
    && WellFormed(w)
    && w.journal.onDisk == {None}
    && (w.secret.Some? ==> StoredMatches(w.secret.value, id))
    && (forall r <- w.record.onDisk ::
          || (r.Confirmed? && r.id == id)
          || (r.Cleared? && w.tombstone.onDisk == {true} && w.secret.None?))
  }

  lemma ConfirmationSyncOwesDeletion(w: World, id: Identity, generation: int)
    requires WellFormed(w) && Guard(w, RecordWritten(Confirmed(id, generation)))
    ensures DeletionOwed(Apply(Apply(w, RecordWritten(Confirmed(id, generation))), DirectorySynced), id)
  {
  }

  lemma StepKeepsDeletionOwed(w: World, a: Action, id: Identity)
    requires DeletionOwed(w, id) && Guard(w, a)
    ensures a.JournalWritten? ==> DeletionFinished(w)
    ensures !a.JournalWritten? ==> DeletionOwed(Apply(w, a), id)
  {
  }

  /**
   * After a durable confirmation, and across lost or malformed markers and power losses, the
   * deletion stays owed until it is finished: no save gets to write a journal before that.
   */
  lemma {:induction false} ConfirmedDeletionIsNeverForgotten(w: World, log: seq<Action>, id: Identity)
    returns (finished: nat)
    requires DeletionOwed(w, id) && Legal(w, log)
    ensures finished <= |log|
    ensures forall k | 0 <= k <= finished :: DeletionOwed(After(w, log[..k]), id)
    ensures finished < |log| ==> log[finished].JournalWritten? && DeletionFinished(After(w, log[..finished]))
  {
    if log == [] {
      finished := 0;
      assert log[..0] == log;
    } else {
      var prefix := log[..|log| - 1];
      finished := ConfirmedDeletionIsNeverForgotten(w, prefix, id);
      forall k | 0 <= k <= finished ensures log[..k] == prefix[..k] {}
      assert prefix[..|prefix|] == prefix;
      if finished == |prefix| {
        var a := log[|log| - 1];
        StepKeepsDeletionOwed(After(w, prefix), a, id);
        if !a.JournalWritten? {
          finished := |log|;
          assert log[..|log|] == log;
        }
      }
    }
  }

  /**
   * A deletion runs to its end, and before its marker is removed the marker file is damaged: nothing
   * is left to delete, yet a marker is there that cannot be read.
   */
  lemma MalformedMarkerCanOutliveDeletion() returns (log: seq<Action>)
    ensures Legal(SIGNED_IN, log)
    ensures var w := After(SIGNED_IN, log);
            && DeletionOwed(w, OLD_IDENTITY) && DeletionFinished(w)
            && w.marker.visible == Some(Malformed) && !w.record.visible.Confirmed?
  {
    log := ErasedDeletion();
    log := Taken(SIGNED_IN, log, MarkerDamaged(Some(Malformed)));
  }

  /** A deletion up to the removal of its marker. */
  lemma ErasedDeletion() returns (log: seq<Action>)
    ensures Legal(SIGNED_IN, log)
    ensures var marker := Some(Pending(OLD_IDENTITY, 1));
            After(SIGNED_IN, log) ==
            SIGNED_IN.(tombstone := Entry(true, {true}), record := Entry(Cleared, {Cleared}),
                       marker := Entry(marker, {marker}), secret := None)
  {
    log := ConfirmedDeletion();
    log := Taken(SIGNED_IN, log, TombstoneWritten);
    log := Taken(SIGNED_IN, log, DirectorySynced);
    log := Taken(SIGNED_IN, log, SecretDeleted);
    log := Taken(SIGNED_IN, log, RecordWritten(Cleared));
    log := Taken(SIGNED_IN, log, DirectorySynced);
  }

  lemma ConfirmedDeletion() returns (log: seq<Action>)
    ensures Legal(SIGNED_IN, log)
    ensures var confirmed, marker := Confirmed(OLD_IDENTITY, 1), Some(Pending(OLD_IDENTITY, 1));
            After(SIGNED_IN, log) ==
            SIGNED_IN.(record := Entry(confirmed, {confirmed}), marker := Entry(marker, {marker}))
  {
    log := Taken(SIGNED_IN, [], MarkerWritten(Pending(OLD_IDENTITY, 1)));
    log := Taken(SIGNED_IN, log, DirectorySynced);
    log := Taken(SIGNED_IN, log, RecordWritten(Confirmed(OLD_IDENTITY, 1)));
    log := Taken(SIGNED_IN, log, DirectorySynced);
  }

  // ----- The deletion marker -----

  /** A record that may be left names `id` or nobody. */
  ghost predicate RecordsAllow(w: World, id: Identity) {
    forall r <- w.record.onDisk :: Named(r) == None || Named(r) == Some(id)
  }

  ghost predicate JournalsAllow(w: World, id: Identity) {
    forall c: Commit | Some(c) in w.journal.onDisk :: IdentityOf(c) == id
  }

  /** A pending marker for somebody means the identity file names them or nobody. */
  ghost predicate MarkerAgrees(w: World) {
    w.marker.visible.Some? && w.marker.visible.value.Pending? ==>
      Named(Recovered(w).record) in {None, Some(w.marker.visible.value.id)}
  }

  ghost predicate MarkerSound(w: World) {
    && WellFormed(w)
    && (w.journal.visible.None? || w.untouched ==>
          Named(w.record.visible).Some? ==>
            forall r <- w.record.onDisk :: Named(r) == Named(w.record.visible))
    && (forall m: Marker | Some(m) in w.marker.onDisk && m.Pending? ::
          RecordsAllow(w, m.id) && JournalsAllow(w, m.id))
  }

  /**
   * What the code does not check before two of its steps: that no removed marker can come back
   * under a new journal, and that no removed journal can come back under a new marker.
   */
  ghost predicate MarkerSettled(w: World, a: Action) {
    && (a.JournalWritten? ==>
          forall m: Marker | Some(m) in w.marker.onDisk && m.Pending? :: IdentityOf(a.commit) == m.id)
    && (a.MarkerWritten? && a.marker.Pending? ==> JournalsAllow(w, a.marker.id))
  }

  ghost predicate MarkersSettled(w: World, log: seq<Action>) {
    log == [] ||
    (MarkersSettled(w, log[..|log| - 1]) && MarkerSettled(After(w, log[..|log| - 1]), log[|log| - 1]))
  }

  lemma StepKeepsMarkerSound(w: World, a: Action)
    requires MarkerSound(w) && Guard(w, a)
    ensures MarkerSound(Apply(w, a)) <==> MarkerSettled(w, a)
  {
  }

  ghost predicate MarkerSurvivesPowerLoss(w: World) {
    forall j <- w.journal.onDisk, t <- w.tombstone.onDisk, r <- w.record.onDisk, m <- w.marker.onDisk ::
      MarkerAgrees(Apply(w, PowerLost(j, t, r, m)))
  }

  lemma MarkerSoundAgrees(w: World)
    requires MarkerSound(w)
    ensures MarkerAgrees(w) && MarkerSurvivesPowerLoss(w)
  {
  }

  /**
   * Exactly when a step keeps markers and identities together under any power loss. For every
   * step but the two named in `MarkerSettled` the condition is true.
   */
  lemma MarkerStepIsSafeExactlyWhenSettled(w: World, a: Action)
    requires MarkerSound(w) && Guard(w, a)
    ensures MarkerSurvivesPowerLoss(Apply(w, a)) <==> MarkerSettled(w, a)
  {
    StepKeepsMarkerSound(w, a);
    var next := Apply(w, a);
    if MarkerSettled(w, a) {
      MarkerSoundAgrees(next);
    } else if a.JournalWritten? {
      var m: Marker :| Some(m) in w.marker.onDisk && m.Pending? && IdentityOf(a.commit) != m.id;
      assert !MarkerAgrees(Apply(next, PowerLost(Some(a.commit), w.tombstone.visible, w.record.visible, Some(m))));
    } else {
      var c: Commit :| Some(c) in w.journal.onDisk && IdentityOf(c) != a.marker.id;
      assert !MarkerAgrees(Apply(next, PowerLost(Some(c), w.tombstone.visible, w.record.visible, Some(a.marker))));
    }
  }

  lemma {:induction false} SettledRunsStaySound(w: World, log: seq<Action>)
    requires MarkerSound(w) && Legal(w, log) && MarkersSettled(w, log)
    ensures MarkerSound(After(w, log))
  {
    if log != [] {
      SettledRunsStaySound(w, log[..|log| - 1]);
      StepKeepsMarkerSound(After(w, log[..|log| - 1]), log[|log| - 1]);
    }
  }

  /** At no moment of a run would a power loss part a marker from its identity. */
  ghost predicate NeverParts(w: World, log: seq<Action>) {
    Always(w, log, MarkerSurvivesPowerLoss)
  }

  /**
   * Over every run: a pending marker and the identity record agree at every moment, whatever a
   * power loss then leaves, if and only if markers and journals settled before the other appeared.
   */
  lemma {:induction false} MarkersAgreeOverEveryRun(w: World, log: seq<Action>)
    requires MarkerSound(w) && Legal(w, log)
    ensures MarkersSettled(w, log) <==> NeverParts(w, log)
    ensures MarkersSettled(w, log) ==> MarkerAgrees(After(w, log))
  {
    MarkerSoundAgrees(w);
    if log != [] {
      var prefix := log[..|log| - 1];
      MarkersAgreeOverEveryRun(w, prefix);
      if MarkersSettled(w, prefix) {
        SettledRunsStaySound(w, prefix);
        MarkerStepIsSafeExactlyWhenSettled(After(w, prefix), log[|log| - 1]);
      }
    }
    if MarkersSettled(w, log) {
      SettledRunsStaySound(w, log);
      MarkerSoundAgrees(After(w, log));
    }
  }

  /**
   * A deletion request is refused, its marker is removed but the directory sync fails; the next
   * token rotation puts its journal in place; power fails before that journal is synced. The old
   * marker is back, and replaying the journal makes the identity file name the rotated tokens.
   */
  lemma ForgottenMarkerCanReturn() returns (log: seq<Action>)
    ensures MarkerSound(SIGNED_IN) && Legal(SIGNED_IN, log) && !MarkerAgrees(After(SIGNED_IN, log))
  {
    var marker, c := Pending(OLD_IDENTITY, 1), Commit(0, NEW_RESPONSE);
    log := Taken(SIGNED_IN, [], MarkerWritten(marker));
    log := Taken(SIGNED_IN, log, DirectorySynced);
    log := Taken(SIGNED_IN, log, MarkerRemoved);
    log := Taken(SIGNED_IN, log, JournalWritten(c));
    log := Taken(SIGNED_IN, log, PowerLost(Some(c), false, SIGNED_IN.record.visible, Some(marker)));
  }

  /**
   * A deletion request ends without an answer: the account is taken for deleted, everything is
   * erased, the marker unlinked, and the failed sync told to nobody. The next login puts its journal
   * in place; power fails before it is synced, and the marker is back beside it.
   */
  lemma UncertainDeletionCanReturn() returns (log: seq<Action>)
    ensures MarkerSound(SIGNED_IN) && Legal(SIGNED_IN, log) && !MarkerAgrees(After(SIGNED_IN, log))
  {
    var marker, c := Pending(OLD_IDENTITY, 1), Commit(0, NEW_RESPONSE);
    log := ErasedDeletion();
    log := Taken(SIGNED_IN, log, MarkerRemoved);
    log := Taken(SIGNED_IN, log, JournalWritten(c));
    log := Taken(SIGNED_IN, log, PowerLost(Some(c), true, Cleared, Some(marker)));
  }
}
