/** `TokenStore`: save, recovery, sign-out and the identity record, bound to one API. */
module TokenStorage {
  import opened Prelude
  import opened CredentialModel
  import opened CredentialSafety
  import opened CredentialPlatform

  /** The record names the identity, and the keyring holds its token or none. */
  predicate Deletable(v: View, identity: Identity) {
    Named(v.record) == Some(identity) && SecretIsRecorded(v)
  }

  /** The keyring holds the recorded identity's token, or none. */
  predicate SecretIsRecorded(v: View) {
    v.secret.Some? ==> Named(v.record).Some? && StoredMatches(v.secret.value, Named(v.record).value)
  }

  class TokenStore {
    const platform: Platform
    const api: ApiBase
    /** The identity a refresh made for an account deletion must still find. */
    var deletionRefresh: Option<Identity>

    constructor (platform: Platform, api: ApiBase)
      ensures this.platform == platform && this.api == api && deletionRefresh == None
    {
      this.platform := platform;
      this.api := api;
      deletionRefresh := None;
    }

    // ----- Journal -----

    /** After the keyring write: drop the tombstone, write the identity file, drop the journal. */
    method FinishCommit() returns (status: Status)
      requires platform.Valid() && platform.world.journal.visible.Some? && !platform.world.untouched
      requires platform.world.secret == Some(StoredOf(platform.world.journal.visible.value))
      requires platform.world.writer == platform.world.journal.visible
      modifies platform
      ensures platform.Valid() && old(platform.log) <= platform.log && status in {Ok, Failed}
      ensures Recovered(platform.world) == old(Recovered(platform.world))
      ensures platform.world.marker.visible == old(platform.world.marker.visible)
      ensures status == Ok ==> platform.world == Replay(old(platform.world))
      ensures platform.reliable ==> status == Ok
      ensures old(platform.Disciplined()) ==> platform.Disciplined()
      ensures old(platform.Quiet()) ==> platform.Quiet()
    {
      var c := platform.world.journal.visible.value;
      ReplayUnfolds(platform.world);
      if platform.world.tombstone.visible {
        var removed, _ := platform.Remove(TombstoneRemoved);
        if removed != Ok { return Failed; }
      }
      var written, _ := platform.Write(RecordWritten(Active(IdentityOf(c))));
      if written != Ok { return Failed; }
      var cleared, _ := platform.Remove(JournalRemoved);
      status := cleared;
    }

    method ReplayCredentialCommit() returns (status: Status)
      requires platform.Valid() && platform.world.journal.visible.Some?
      modifies platform
      ensures platform.Valid() && old(platform.log) <= platform.log && status in {Ok, Failed}
      ensures Recovered(platform.world) == old(Recovered(platform.world))
      ensures platform.world.marker.visible == old(platform.world.marker.visible)
      ensures status == Ok ==> platform.world == Replay(old(platform.world))
      ensures platform.reliable ==> status == Ok
      ensures old(platform.Disciplined() && platform.world.journal.Durable()) ==> platform.Disciplined()
      ensures old(platform.Quiet()) ==> platform.Quiet()
    {
      ReplayUnfolds(platform.world);
      var saved := platform.SaveSecret();
      if saved != Saved { return Failed; }
      ReplayUnfolds(platform.world);
      status := FinishCommit();
    }

    /** Any failure while replaying is reported as pending, marked as happening during recovery. */
    method RecoverCredentialCommit() returns (status: Status)
      requires platform.Valid()
      modifies platform
      ensures platform.Valid() && old(platform.log) <= platform.log
      ensures status in {Ok, Failed, CommitPending(true)}
      ensures Recovered(platform.world) == old(Recovered(platform.world))
      ensures status == Ok ==> platform.world.journal.visible.None?
      ensures platform.world.marker.visible == old(platform.world.marker.visible)
      ensures old(platform.world.journal.visible).None? ==>
                platform.world == old(platform.world) && platform.log == old(platform.log)
      ensures status == Ok && old(platform.world.journal.visible).Some? ==>
                platform.world == Replay(old(platform.world))
      ensures platform.reliable ==> status == Ok
      ensures old(platform.Disciplined() && platform.Quiet()) ==> platform.Disciplined()
      ensures old(platform.Quiet()) ==> platform.Quiet()
    {
      var readable := platform.Read();
      if !readable { return Failed; }
      if platform.world.journal.visible.None? { return Ok; }
      ReplayUnfolds(platform.world);
      status := ReplayCredentialCommit();
      if status != Ok { status := CommitPending(true); }
    }

    method RestoreJournal(c: Commit) returns (status: Status)
      requires platform.Valid() && Guard(platform.world, JournalWritten(c))
      modifies platform
      ensures platform.Valid() && old(platform.log) <= platform.log
      ensures status in {Ok, Failed, CommitPending(false)}
      ensures status == Failed ==> platform.world == old(platform.world)
      ensures status != Failed ==> platform.world.journal.visible == Some(c)
      ensures platform.world.secret == old(platform.world.secret)
      ensures platform.world.tombstone.visible == old(platform.world.tombstone.visible)
      ensures platform.world.record.visible == old(platform.world.record.visible)
      ensures old(platform.Disciplined() && platform.world.marker.Durable()) ==> platform.Disciplined()
    {
      var written, replaced := platform.Write(JournalWritten(c));
      if written == Ok { return Ok; }
      status := if replaced then CommitPending(false) else Failed;
    }

    /**
     * Take back a journal whose secret the keyring rejected. Returns normally only when the
     * journal is durably gone; when that cannot be told, the journal is put back.
     */
    method AbortCredentialCommit(c: Commit) returns (status: Status)
      requires platform.Valid() && platform.world.journal.visible == Some(c) && platform.world.untouched
      requires platform.world.marker.visible.None? && !platform.world.record.visible.Confirmed?
      modifies platform
      ensures platform.Valid() && old(platform.log) <= platform.log
      ensures status in {Ok, Failed, CommitPending(false)}
      ensures status == CommitPending(false) <==> platform.world.journal.visible == Some(c)
      ensures status != CommitPending(false) ==> platform.world.journal.visible == None
      ensures platform.world.secret == old(platform.world.secret)
      ensures platform.world.tombstone.visible == old(platform.world.tombstone.visible)
      ensures platform.world.record.visible == old(platform.world.record.visible)
      ensures old(platform.Disciplined() && platform.world.marker.Durable()) ==> platform.Disciplined()
    {
      var cleared, unlinked := platform.Remove(JournalRemoved);
      if cleared == Ok { return Ok; }
      if unlinked {
        var restored := RestoreJournal(c);
        if restored != Ok { return restored; }
      }
      status := CommitPending(false);
    }

    // ----- Save -----

    method Save(response: TokenResponse) returns (status: Status)
      requires platform.Valid()
      modifies platform
      ensures platform.Valid() && old(platform.log) <= platform.log
      ensures status != CleanupPending
      ensures status in {Ok, CommitPending(false)} ==>
                Recovered(platform.world) == ViewOf(Commit(api, response))
      ensures status in {Failed, CommitPending(true)} ==>
                Recovered(platform.world) == old(Recovered(platform.world))
      ensures status == Ok ==> platform.world.journal.visible.None?
      // Neither a marker nor a confirmed deletion lets a save through.
      ensures old(platform.world.marker.visible).Some? || old(Recovered(platform.world).record).Confirmed? ==>
                status in {Failed, CommitPending(true)}
      ensures deletionRefresh.Some? && old(Named(Recovered(platform.world).record)) != deletionRefresh ==>
                status in {Failed, CommitPending(true)}
      ensures (&& platform.reliable
               && old(platform.world.marker.visible).None?
               && !old(Recovered(platform.world).record).Confirmed?
               && (deletionRefresh.Some? ==> old(Deletable(Recovered(platform.world), deletionRefresh.value)))) ==>
                status == Ok
      ensures old(platform.Disciplined() && platform.Quiet()) ==> platform.Disciplined()
      ensures old(platform.Quiet()) && status == Ok ==> platform.Quiet()
      ensures old(platform.Quiet()) &&
              (old(platform.world.marker.visible).Some? || old(Recovered(platform.world).record).Confirmed?) ==>
                platform.Quiet()
    {
      status := RecoverCredentialCommit();
      if status != Ok { return; }
      status := AssertAccountDeletionUnblocked();
      if status != Ok { return; }
      status := AssertAccountDeletionRefreshCurrent();
      if status != Ok { return; }
      status := SaveLocked(response);
    }

    method AssertAccountDeletionUnblocked() returns (status: Status)
      requires platform.Valid() && platform.world.journal.visible.None?
      modifies platform
      ensures platform.Valid() && old(platform.log) <= platform.log
      ensures platform.world == old(platform.world) && status in {Ok, Failed}
      ensures status == Ok ==> platform.world.marker.visible.None? && !platform.world.record.visible.Confirmed?
      ensures (&& platform.reliable
               && platform.world.marker.visible.None?
               && !platform.world.record.visible.Confirmed?) ==> status == Ok
      ensures old(platform.Disciplined()) ==> platform.Disciplined()
      ensures old(platform.Quiet()) ==> platform.Quiet()
    {
      var readable := platform.Read();
      if !readable || platform.world.marker.visible.Some? { return Failed; }
      var checked, generation := ConfirmedGeneration();
      if checked != Ok || generation.Some? { return Failed; }
      status := Ok;
    }

    method AssertAccountDeletionRefreshCurrent() returns (status: Status)
      requires platform.Valid() && platform.world.journal.visible.None?
      modifies platform
      ensures platform.Valid() && old(platform.log) <= platform.log
      ensures platform.world == old(platform.world) && status in {Ok, Failed}
      ensures status == Ok && deletionRefresh.Some? ==> Named(platform.world.record.visible) == deletionRefresh
      ensures deletionRefresh.None? ==> status == Ok
      ensures platform.reliable && deletionRefresh.Some? &&
              Deletable(Recovered(platform.world), deletionRefresh.value) ==>
                status == Ok
      ensures old(platform.Disciplined()) ==> platform.Disciplined()
      ensures old(platform.Quiet()) ==> platform.Quiet()
    {
      if deletionRefresh.None? { return Ok; }
      var checked, current := CredentialIdentity();
      status := if checked == Ok && current == deletionRefresh then Ok else Failed;
    }

    method SaveLocked(response: TokenResponse) returns (status: Status)
      requires platform.Valid() && platform.world.journal.visible.None?
      requires platform.world.marker.visible.None? && !platform.world.record.visible.Confirmed?
      modifies platform
      ensures platform.Valid() && old(platform.log) <= platform.log
      ensures status in {Ok, Failed, CommitPending(false)}
      ensures status != Failed ==> Recovered(platform.world) == ViewOf(Commit(api, response))
      ensures status == Failed ==> Recovered(platform.world) == old(Recovered(platform.world))
      ensures status == Ok ==> platform.world.journal.visible.None?
      ensures platform.reliable ==> status == Ok
      ensures old(platform.Disciplined() && platform.Quiet()) ==> platform.Disciplined()
      ensures status == Ok ==> platform.Quiet()
    {
      var c := Commit(api, response);
      status := RecoverCredentialCommit();
      if status != Ok { return Failed; }
      var written, replaced := platform.Write(JournalWritten(c));
      if written != Ok {
        return if replaced then CommitPending(false) else Failed;
      }
      var saved := platform.SaveSecret();
      if saved == Uncertain { return CommitPending(false); }
      if saved == Rejected {
        status := AbortCredentialCommit(c);
        return if status == Ok then Failed else status;
      }
      ReplayUnfolds(platform.world);
      status := FinishCommit();
      if status != Ok { status := CommitPending(false); }
    }

    // ----- Load -----

    /** What recovery yields, whichever API it is bound to: what `load_for_revocation` answers. */
    method LoadStored() returns (status: Status, stored: Option<Stored>)
      requires platform.Valid()
      modifies platform
      ensures platform.Valid() && old(platform.log) <= platform.log
      ensures status in {Ok, Failed, CommitPending(true)}
      ensures Recovered(platform.world) == old(Recovered(platform.world))
      ensures status == Ok ==> stored == Loadable(old(Recovered(platform.world)))
      ensures platform.reliable ==> status == Ok
      ensures old(platform.Disciplined() && platform.Quiet()) ==> platform.Disciplined()
      ensures old(platform.Quiet()) ==> platform.Quiet()
    {
      stored := None;
      status := RecoverCredentialCommit();
      if status != Ok { return; }
      var readable := platform.Read();
      if !readable { status := Failed; return; }
      if platform.world.tombstone.visible { return; }
      readable := platform.Read();
      if !readable { status := Failed; return; }
      stored := platform.world.secret;
    }

    method Load() returns (status: Status, stored: Option<Stored>)
      requires platform.Valid()
      modifies platform
      ensures platform.Valid() && old(platform.log) <= platform.log
      ensures status in {Ok, Failed, CommitPending(true)}
      ensures Recovered(platform.world) == old(Recovered(platform.world))
      ensures status == Ok ==>
                var found := Loadable(old(Recovered(platform.world)));
                stored == if found.Some? && found.value.api == api then found else None
      ensures platform.reliable ==> status == Ok
      ensures old(platform.Disciplined() && platform.Quiet()) ==> platform.Disciplined()
      ensures old(platform.Quiet()) ==> platform.Quiet()
    {
      status, stored := LoadStored();
      if status != Ok || (stored.Some? && stored.value.api != api) { stored := None; }
    }

    // ----- The identity record -----

    /** The keyring's document, tombstone or not; `Failed` when it cannot be read. */
    method DeletionCandidate() returns (status: Status, candidate: Option<Stored>)
      ensures status in {Ok, Failed}
      ensures status == Ok ==> candidate == platform.world.secret
      ensures platform.reliable ==> status == Ok
    {
      candidate := None;
      var readable := platform.Read();
      if !readable { return Failed, None; }
      readable := platform.Read();
      if !readable { return Failed, None; }
      status, candidate := Ok, platform.world.secret;
    }

    /** The identity on record, refused when the keyring holds somebody else's token. */
    method CredentialIdentity() returns (status: Status, identity: Option<Identity>)
      requires platform.Valid()
      modifies platform
      ensures platform.Valid() && old(platform.log) <= platform.log
      ensures status in {Ok, Failed, CommitPending(true)}
      ensures platform.world.marker.visible == old(platform.world.marker.visible)
      ensures Recovered(platform.world) == old(Recovered(platform.world))
      ensures old(platform.world.journal.visible).None? ==>
                platform.world == old(platform.world) && platform.log == old(platform.log)
      ensures status == Ok ==>
                && platform.world.journal.visible.None?
                && identity == Named(platform.world.record.visible)
                && (platform.world.secret.Some? ==>
                      identity.Some? && StoredMatches(platform.world.secret.value, identity.value))
      ensures status == Ok ==> old(SecretIsRecorded(Recovered(platform.world)))
      ensures platform.reliable && old(SecretIsRecorded(Recovered(platform.world))) ==> status == Ok
      ensures old(platform.Disciplined() && platform.Quiet()) ==> platform.Disciplined()
      ensures old(platform.Quiet()) ==> platform.Quiet()
    {
      identity := None;
      status := RecoverCredentialCommit();
      if status != Ok { return; }
      var candidate;
      status, candidate := DeletionCandidate();
      if status != Ok { return; }
      var readable := platform.Read();
      if !readable { status := Failed; return; }
      identity := Named(platform.world.record.visible);
      if candidate.Some?
         && (identity.None?
             || candidate.value.api != identity.value.api || candidate.value.refresh != identity.value.refresh) {
        status := Failed;
      }
    }

    method ConfirmedGeneration() returns (status: Status, generation: Option<int>)
      requires platform.Valid()
      modifies platform
      ensures platform.Valid() && old(platform.log) <= platform.log
      ensures status in {Ok, Failed, CommitPending(true)}
      ensures platform.world.marker.visible == old(platform.world.marker.visible)
      ensures Recovered(platform.world) == old(Recovered(platform.world))
      ensures old(platform.world.journal.visible).None? ==>
                platform.world == old(platform.world) && platform.log == old(platform.log)
      ensures status == Ok ==>
                && platform.world.journal.visible.None?
                && (generation.Some? <==> platform.world.record.visible.Confirmed?)
                && (generation.Some? ==>
                      && generation.value == platform.world.record.visible.generation
                      && (platform.world.secret.Some? ==>
                            StoredMatches(platform.world.secret.value, platform.world.record.visible.id)))
      ensures platform.reliable
              && (var v := old(Recovered(platform.world));
                  v.record.Confirmed? && v.secret.Some? ==> StoredMatches(v.secret.value, v.record.id))
              ==> status == Ok
      ensures old(platform.Disciplined() && platform.Quiet()) ==> platform.Disciplined()
      ensures old(platform.Quiet()) ==> platform.Quiet()
    {
      generation := None;
      status := RecoverCredentialCommit();
      if status != Ok { return; }
      var readable := platform.Read();
      if !readable { status := Failed; return; }
      var record := platform.world.record.visible;
      if !record.Confirmed? { return; }
      var candidate;
      status, candidate := DeletionCandidate();
      if status != Ok { return; }
      if candidate.Some?
         && (candidate.value.api != record.id.api || candidate.value.refresh != record.id.refresh) {
        status := Failed;
        return;
      }
      generation := Some(record.generation);
    }

    method ConfirmAccountDeletion(generation: int, identity: Identity) returns (status: Status, confirmed: bool)
      requires platform.Valid()
      modifies platform
      ensures platform.Valid() && old(platform.log) <= platform.log
      ensures status in {Ok, Failed, CommitPending(true)}
      ensures status == Ok && confirmed ==>
                && DeletionOwed(platform.world, identity)
                && platform.world.record.visible == Confirmed(identity, generation)
                && platform.Quiet()
      ensures var before := old(Recovered(platform.world));
              Recovered(platform.world) in {before, before.(record := Confirmed(identity, generation))}
      ensures old(Named(Recovered(platform.world).record)) != Some(identity) ==>
                !confirmed && Recovered(platform.world) == old(Recovered(platform.world))
      ensures platform.reliable && old(platform.world.journal.visible).None?
              && old(Named(platform.world.record.visible)) == Some(identity)
              && (old(platform.world.secret).Some? ==> StoredMatches(old(platform.world.secret).value, identity))
              ==> status == Ok && confirmed
      ensures platform.world.secret == old(Recovered(platform.world)).secret || status != Ok
      ensures old(platform.Disciplined() && platform.Quiet()) ==> platform.Disciplined()
      ensures old(platform.Quiet()) ==> platform.Quiet()
    {
      confirmed := false;
      var current;
      status, current := CredentialIdentity();
      if status != Ok || current != Some(identity) { return; }
      var a := RecordWritten(Confirmed(identity, generation));
      ConfirmationSyncOwesDeletion(platform.world, identity, generation);
      var ended, _ := platform.Write(a);
      status := ended;
      confirmed := status == Ok;
    }

    // ----- Clear -----

    /** Tombstone first, then the keyring, then the identity file. */
    method ClearLocked() returns (status: Status, replaced: bool)
      requires platform.Valid()
      modifies platform
      ensures platform.Valid() && old(platform.log) <= platform.log
      ensures status in {Ok, Failed, CommitPending(true)}
      ensures platform.world.marker.visible == old(platform.world.marker.visible)
      ensures !replaced ==> Recovered(platform.world) == old(Recovered(platform.world)) && status != Ok
      ensures replaced ==> Loadable(Recovered(platform.world)) == None && Recovered(platform.world).signedOut
      ensures status == Ok ==>
                DeletionFinished(platform.world) && SignedOutForGood(platform.world) && platform.world.record.Durable()
      ensures Recovered(platform.world).record == old(Recovered(platform.world)).record ||
              (DeletionFinished(platform.world) && SignedOutForGood(platform.world))
      ensures platform.reliable ==> status == Ok
      ensures old(platform.Disciplined() && platform.Quiet()) ==> platform.Disciplined()
      ensures old(platform.Quiet()) ==> platform.Quiet()
    {
      replaced := false;
      status := RecoverCredentialCommit();
      if status != Ok { return; }
      TombstoneSyncSignsOutForGood(platform.world);
      status, replaced := platform.Write(TombstoneWritten);
      if status != Ok { return; }
      status := EraseCredentials();
    }

    /** Behind a durable tombstone. */
    method EraseCredentials() returns (status: Status)
      requires platform.Valid() && SignedOutForGood(platform.world) && platform.Quiet()
      requires Guard(platform.world, SecretDeleted)
      modifies platform
      ensures platform.Valid() && old(platform.log) <= platform.log
      ensures status in {Ok, Failed} && SignedOutForGood(platform.world) && platform.Quiet()
      ensures platform.world.journal.visible.None? && platform.world.tombstone.visible
      ensures platform.world.marker.visible == old(platform.world.marker.visible)
      ensures status == Ok ==> DeletionFinished(platform.world) && platform.world.record.Durable()
      ensures platform.world.record.visible == old(platform.world.record.visible) || DeletionFinished(platform.world)
      ensures platform.reliable ==> status == Ok
      ensures old(platform.Disciplined()) ==> platform.Disciplined()
    {
      status := platform.DeleteSecret();
      if status != Ok { return; }
      var ended, _ := platform.Write(RecordWritten(Cleared));
      status := ended;
    }

    method Clear() returns (status: Status)
      requires platform.Valid()
      modifies platform
      ensures platform.Valid() && old(platform.log) <= platform.log
      ensures status in {Ok, Failed, CleanupPending, CommitPending(true)}
      ensures status in {Ok, CleanupPending} ==> Loadable(Recovered(platform.world)) == None
      ensures status == Ok ==> DeletionFinished(platform.world) && SignedOutForGood(platform.world)
      ensures status in {Failed, CommitPending(true)} ==>
                Recovered(platform.world) == old(Recovered(platform.world))
      ensures platform.reliable ==> status == Ok
      ensures old(platform.Disciplined() && platform.Quiet()) ==> platform.Disciplined()
      ensures old(platform.Quiet()) ==> platform.Quiet()
    {
      var replaced;
      status, replaced := ClearLocked();
      if status != Ok && replaced { status := CleanupPending; }
    }

    /** Clears only what is still the deleted account's; `true` when nothing of it is left. */
    method ClearAccountDeletionCredentials(identity: Identity) returns (status: Status, cleared: bool)
      requires platform.Valid()
      modifies platform
      ensures platform.Valid() && old(platform.log) <= platform.log
      ensures status in {Ok, Failed, CommitPending(true)}
      ensures old(Named(Recovered(platform.world).record)) != Some(identity) ==>
                Recovered(platform.world) == old(Recovered(platform.world))
      ensures old(platform.world.journal.visible).None? && old(Named(platform.world.record.visible)).None? ==>
                platform.world == old(platform.world)
      ensures status == Ok ==>
                (cleared <==> old(Named(Recovered(platform.world).record)) in {None, Some(identity)})
      ensures status == Ok && old(Named(Recovered(platform.world).record)) == Some(identity) ==>
                DeletionFinished(platform.world) && SignedOutForGood(platform.world)
      ensures status == Ok ==> old(SecretIsRecorded(Recovered(platform.world)))
      ensures platform.reliable && old(SecretIsRecorded(Recovered(platform.world))) ==> status == Ok
      ensures old(platform.Disciplined() && platform.Quiet()) ==> platform.Disciplined()
      ensures old(platform.Quiet()) ==> platform.Quiet()
    {
      cleared := false;
      var current;
      status, current := CredentialIdentity();
      if status != Ok { return; }
      if current.None? { cleared := true; return; }
      if current != Some(identity) { return; }
      var ended, _ := ClearLocked();
      status := ended;
      cleared := status == Ok;
    }

    method ClearIfSignedOut() returns (status: Status)
      requires platform.Valid()
      modifies platform
      ensures platform.Valid() && old(platform.log) <= platform.log
      ensures old(platform.world.tombstone.visible) ==> status == Ok ==>
                DeletionFinished(platform.world) && SignedOutForGood(platform.world)
      ensures !old(platform.world.tombstone.visible) ==> platform.world == old(platform.world)
      ensures platform.world.marker.visible == old(platform.world.marker.visible)
      ensures old(platform.Disciplined() && platform.Quiet()) ==> platform.Disciplined()
      ensures old(platform.Quiet()) ==> platform.Quiet()
      ensures platform.reliable ==> status == Ok
    {
      var readable := platform.Read();
      if !readable { return Failed; }
      if !platform.world.tombstone.visible { return Ok; }
      var ended, _ := ClearLocked();
      status := ended;
    }
  }
}
