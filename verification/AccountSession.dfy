/** In-memory session state over the token store: accepting tokens, refreshing, signing out. */
module AccountSession {
  import opened Prelude
  import opened CredentialModel
  import opened CredentialSafety
  import opened CredentialPlatform
  import opened TokenStorage
  import Fence = SessionFence

  /** `RequestFailed` is the service's own error let through; whatever went wrong locally is not told. */
  datatype Outcome = Done | Cancelled | SignInRequired | InvalidTokens | RequestFailed | StoreError(status: Status)

  /** A marker or a confirmed deletion lets no new tokens in. */
  predicate Blocked(w: World) {
    w.marker.visible.Some? || Recovered(w).record.Confirmed?
  }

  class AuthenticatedSession {
    const store: TokenStore
    const platform: Platform := store.platform
    /** Lock-protected state, shared with the account lifecycle. */
    var state: Fence.Session

    constructor (store: TokenStore, state: Fence.Session)
      ensures this.store == store && this.state == state
    {
      this.store := store;
      this.state := state;
    }

    ghost predicate Valid()
      reads this, store, platform
    {
      platform.Valid()
    }

    /**
     * Adopts the new tokens exactly when finishing recovery on what is now visible would yield
     * them. Otherwise memory is as it was, and so is what recovery would yield.
     */
    method AcceptTokens(response: Option<TokenResponse>) returns (outcome: Outcome, adopted: bool)
      requires Valid()
      modifies this, platform
      ensures Valid() && old(platform.log) <= platform.log
      ensures adopted ==>
                && response.Some?
                && Recovered(platform.world) == ViewOf(Commit(store.api, response.value))
                && state == old(state).(access := Some(response.value.access), refresh := Some(response.value.refresh))
      ensures !adopted ==>
                && Recovered(platform.world) == old(Recovered(platform.world))
                && state == old(state)
      ensures outcome.Done? ==> adopted && platform.world.journal.visible.None?
      ensures response.None? ==> outcome == InvalidTokens && !adopted
      ensures platform.reliable && response.Some? && !old(Blocked(platform.world))
              && (store.deletionRefresh.Some? ==>
                    old(Deletable(Recovered(platform.world), store.deletionRefresh.value))) ==>
                outcome.Done?
      ensures adopted && !outcome.Done? ==> outcome == StoreError(CommitPending(false))
      ensures adopted ==> old(platform.world.marker.visible).None?
                          && !old(Recovered(platform.world).record).Confirmed?
      ensures adopted && store.deletionRefresh.Some? ==>
                old(Named(Recovered(platform.world).record)) == store.deletionRefresh
      ensures old(platform.Disciplined() && platform.Quiet()) ==> platform.Disciplined()
      ensures old(platform.Quiet()) && !outcome.StoreError? ==> platform.Quiet()
      ensures old(platform.Quiet() && Blocked(platform.world)) ==> platform.Quiet()
    {
      adopted := false;
      if response.None? { outcome := InvalidTokens; return; }
      var status := store.Save(response.value);
      adopted := status == Ok || status == CommitPending(false);
      if adopted {
        state := state.(access := Some(response.value.access), refresh := Some(response.value.refresh));
      }
      outcome := if status == Ok then Done else StoreError(status);
    }

    /** First locked section of a refresh: which token to refresh, for which generation. */
    method BeginRefresh(generation: nat, accessIsFresh: bool) returns (outcome: Outcome, refreshToken: Option<Digest>)
      requires Valid()
      modifies platform
      ensures Valid() && old(platform.log) <= platform.log
      ensures Recovered(platform.world) == old(Recovered(platform.world))
      ensures !Fence.Current(state, generation) ==>
                outcome == Cancelled && platform.world == old(platform.world)
      ensures refreshToken.Some? ==>
                && outcome.Done?
                && Fence.Current(state, generation)
                && Loadable(old(Recovered(platform.world))).Some?
                && Loadable(old(Recovered(platform.world))).value.refresh == refreshToken.value
      ensures Fence.Current(state, generation) && state.access.Some? && accessIsFresh ==>
                outcome.Done? && refreshToken.None? && platform.world == old(platform.world)
      ensures Fence.Current(state, generation) && !(state.access.Some? && accessIsFresh) ==>
                var stored := Loadable(old(Recovered(platform.world)));
                && (outcome.Done? <==> refreshToken.Some?)
                && (outcome == SignInRequired ==> stored.None? || stored.value.api != store.api)
                && (outcome in {Done, SignInRequired} || outcome.StoreError?)
                && (platform.reliable ==> !outcome.StoreError?)
      ensures old(platform.Disciplined() && platform.Quiet()) ==> platform.Disciplined()
      ensures old(platform.Quiet()) ==> platform.Quiet()
    {
      refreshToken := None;
      if !Fence.Current(state, generation) { return Cancelled, None; }
      if state.access.Some? && accessIsFresh { return Done, None; }
      var status, stored := store.Load();
      if status != Ok { return StoreError(status), None; }
      if stored.None? { return SignInRequired, None; }
      outcome, refreshToken := Done, Some(stored.value.refresh);
    }

    /** Last locked section: the response is adopted only for the generation that asked for it. */
    method FinishRefresh(generation: nat, response: Option<TokenResponse>) returns (outcome: Outcome, adopted: bool)
      requires Valid()
      modifies this, platform
      ensures Valid() && old(platform.log) <= platform.log
      ensures adopted ==>
                && response.Some?
                && Fence.Current(old(state), generation)
                && Recovered(platform.world) == ViewOf(Commit(store.api, response.value))
                && state == Fence.Step(old(state),
                     Fence.TokensStored(generation, response.value.access, response.value.refresh))
                && !old(Blocked(platform.world)) && outcome in {Done, StoreError(CommitPending(false))}
      ensures outcome.Done? ==> adopted
      ensures !adopted ==>
                state == old(state) && Recovered(platform.world) == old(Recovered(platform.world))
      ensures !Fence.Current(old(state), generation) ==>
                outcome == Cancelled && platform.world == old(platform.world)
      ensures platform.reliable && response.Some? && !old(Blocked(platform.world)) && store.deletionRefresh.None? &&
              Fence.Current(old(state), generation) ==>
                outcome.Done?
      ensures old(platform.Disciplined() && platform.Quiet()) ==> platform.Disciplined()
      ensures old(platform.Quiet()) && !outcome.StoreError? ==> platform.Quiet()
      ensures old(platform.Quiet() && Blocked(platform.world)) ==> platform.Quiet()
    {
      if !Fence.Current(state, generation) { return Cancelled, false; }
      outcome, adopted := AcceptTokens(response);
    }

    /** Locked section of a failed refresh: only a 401 for the current account clears the store. */
    method RefreshFailed(generation: nat, unauthorized: bool) returns (outcome: Outcome)
      requires Valid()
      modifies platform
      ensures Valid() && old(platform.log) <= platform.log
      ensures !Fence.Current(state, generation) || !unauthorized ==> platform.world == old(platform.world)
      ensures !Fence.Current(state, generation) ==> outcome == Cancelled
      ensures Fence.Current(state, generation) && unauthorized && outcome.Done? ==>
                SignedOutForGood(platform.world)
      ensures Fence.Current(state, generation) && (platform.reliable || !unauthorized) ==> outcome.Done?
      ensures Recovered(platform.world) == old(Recovered(platform.world)) || Loadable(Recovered(platform.world)) == None
      ensures old(platform.Disciplined() && platform.Quiet()) ==> platform.Disciplined()
      ensures old(platform.Quiet()) ==> platform.Quiet()
    {
      if !Fence.Current(state, generation) { return Cancelled; }
      if !unauthorized { return Done; }
      var status := store.Clear();
      outcome := if status == Ok then Done else StoreError(status);
    }

    /** Locked section after a 401 on an authorized request. */
    method DropAccess(generation: nat) returns (outcome: Outcome)
      modifies this
      ensures state == Fence.Step(old(state), Fence.AccessDropped(generation))
      ensures outcome == if Fence.Current(old(state), generation) then Done else Cancelled
    {
      if !Fence.Current(state, generation) { return Cancelled; }
      state := state.(access := None);
      outcome := Done;
    }
  }

  /** Whose account is being deleted, and the refresh token the session held for it. */
  datatype DeletionCredentials = DeletionCredentials(generation: nat, identity: Identity, refresh: Option<Digest>)

  /** Whose cleanup is owed: a confirmed record's, or else the marker's. */
  function Owed(w: World): Option<Identity> {
    var record := Recovered(w).record;
    if record.Confirmed? then Some(record.id)
    else if w.marker.visible.Some? && w.marker.visible.value.Pending? then Some(w.marker.visible.value.id)
    else None
  }

  /** With nothing failing, the owed cleanup can be finished, if there is any. */
  predicate Retryable(w: World) {
    var v, marker := Recovered(w), w.marker.visible;
    if v.record.Confirmed? then SecretIsRecorded(v)
    else if marker.None? then true
    else if marker.value.Pending? then SecretIsRecorded(v) && Named(v.record) in {None, Some(marker.value.id)}
    else marker.value.LegacyMarker? && Named(v.record).None? && v.secret.None?
  }

  /** The deleted account's session is signed out, any other is as it was. */
  function AfterCleanup(s: Fence.Session, owed: Option<Identity>): Fence.Session {
    if owed.None? then s else Fence.Step(s, Fence.DeletionCleanedUp(owed.value.access, owed.value.refresh))
  }

  /** The tokens the service is asked to revoke after a sign-out. */
  datatype Revocation = Revocation(access: Option<Digest>, refresh: Option<Digest>)

  const NOTHING_TO_REVOKE := Revocation(None, None)

  ghost function ToRevoke(s: Fence.Session, v: View): Revocation {
    if s.access.Some? || s.refresh.Some? then Revocation(s.access, s.refresh)
    else if !v.signedOut && v.secret.Some? then Revocation(None, Some(v.secret.value.refresh))
    else NOTHING_TO_REVOKE
  }

  lemma CleanupRaisesGeneration(s: Fence.Session, owed: Option<Identity>)
    ensures AfterCleanup(s, owed).generation >= s.generation
  {
  }

  /** `AccountLifecycle`: account deletion with a crash-safe marker, and sign-out. */
  class AccountLifecycle {
    const session: AuthenticatedSession
    const platform: Platform := session.store.platform
    /** Generations whose cleanup is known to be unfinished. */
    var pendingCleanup: set<nat>

    constructor (session: AuthenticatedSession)
      ensures this.session == session && pendingCleanup == {}
    {
      this.session := session;
      pendingCleanup := {};
    }

    ghost predicate Valid()
      reads this, session, session.store, platform
    {
      session.Valid()
    }

    // ----- Marker file -----

    /** Parses the marker; a malformed one is an error, as is a failing read. */
    method ReadMarker() returns (status: Status, marker: Option<Marker>)
      ensures status in {Ok, Failed}
      ensures status == Ok ==> marker == platform.world.marker.visible && marker != Some(Malformed)
      ensures status == Failed ==> marker == None
      ensures platform.reliable && platform.world.marker.visible != Some(Malformed) ==>
                status == Ok
    {
      var readable := platform.Read();
      if !readable || platform.world.marker.visible == Some(Malformed) { return Failed, None; }
      status, marker := Ok, platform.world.marker.visible;
    }

    /** `_deletion_cleanup_exists_safely`: a marker that cannot be read is taken to be there. */
    method MarkerMayExist() returns (maybe: bool)
      ensures platform.world.marker.visible.Some? ==> maybe
      ensures platform.reliable ==> (maybe <==> platform.world.marker.visible.Some?)
    {
      var status, marker := ReadMarker();
      maybe := status != Ok || marker.Some?;
    }

    method ClearMarker() returns (status: Status)
      requires Valid()
      modifies platform
      ensures Valid() && old(platform.log) <= platform.log
      ensures status in {Ok, Failed}
      ensures Recovered(platform.world) == old(Recovered(platform.world))
      ensures old(DeletionFinished(platform.world)) ==> DeletionFinished(platform.world)
      ensures status == Ok ==> platform.world.marker.visible.None?
      ensures platform.reliable ==> status == Ok
      ensures old(platform.Disciplined()) ==> platform.Disciplined()
      ensures old(platform.Quiet()) && status == Ok ==> platform.Quiet()
    {
      if platform.world.marker.visible.None? { return Ok; }
      var ended, _ := platform.Remove(MarkerRemoved);
      status := ended;
    }

    /** `_replace_deletion_cleanup_locked` with a pending obligation. */
    method PutMarker(marker: Marker) returns (status: Status)
      requires Valid() && Guard(platform.world, MarkerWritten(marker))
      modifies platform
      ensures Valid() && old(platform.log) <= platform.log
      ensures status in {Ok, Failed}
      ensures platform.world.journal.visible == old(platform.world.journal.visible)
      ensures platform.world.tombstone.visible == old(platform.world.tombstone.visible)
      ensures platform.world.record.visible == old(platform.world.record.visible)
      ensures platform.world.secret == old(platform.world.secret)
      ensures status == Ok ==>
                platform.world.marker.visible == Some(marker) && platform.Quiet()
      ensures platform.reliable ==> status == Ok
      ensures old(platform.Disciplined() && platform.Quiet()) ==>
                platform.Disciplined()
      ensures old(platform.Quiet()) ==> platform.Quiet()
    {
      var ended, _ := platform.Write(MarkerWritten(marker));
      status := ended;
    }

    // ----- Deletion -----

    /** A deletion starts only for the identity on record, and only if the session is that one. */
    method BeginDeletion(confirmation: bool) returns (outcome: Outcome, credentials: Option<DeletionCredentials>)
      requires Valid()
      modifies session, platform
      ensures Valid() && old(platform.log) <= platform.log
      ensures credentials.Some? ==>
                && confirmation && outcome.Done?
                && credentials.value.generation == session.state.generation
                && credentials.value.refresh == session.state.refresh
                && session.state.deletingAccount && session.state.authenticated && !session.state.shuttingDown
                && Named(platform.world.record.visible) == Some(credentials.value.identity)
                && session.state.access == Some(credentials.value.identity.access)
                && session.store.api == credentials.value.identity.api
                && (session.state.refresh.Some? ==> session.state.refresh.value == credentials.value.identity.refresh)
      ensures credentials.None? ==> Fence.CleanedUp(old(session.state), session.state)
      ensures && platform.reliable && confirmation && old(platform.world.marker.visible).None?
              && !old(Recovered(platform.world).record).Confirmed? && old(SecretIsRecorded(Recovered(platform.world)))
              && old(Named(Recovered(platform.world).record)).Some?
              && old(MatchesSession(Named(Recovered(platform.world).record).value))
              && old(session.state.authenticated && !session.state.deletingAccount && !session.state.shuttingDown) ==>
                && credentials.Some? && session.state == Fence.Step(old(session.state), Fence.DeletionBegan)
      ensures old(platform.Disciplined() && platform.Quiet()) ==> platform.Disciplined()
      ensures old(platform.Quiet()) && !outcome.StoreError? ==> platform.Quiet()
    {
      credentials := None;
      ghost var before := session.state;
      assert before in {before, Fence.Step(before, Fence.DeletionCleanedUp(0, 0))};
      var status := RetryDeletionCleanup();
      if status != Ok { return StoreError(status), None; }
      if !confirmation || !session.state.authenticated || session.state.deletingAccount || session.state.shuttingDown {
        return Done, None;
      }
      var identity;
      status, identity := session.store.CredentialIdentity();
      if status != Ok { return StoreError(status), None; }
      if identity.None? { return Cancelled, None; }
      var refresh := session.state.refresh;
      if session.state.access != Some(identity.value.access) || session.store.api != identity.value.api
         || (refresh.Some? && refresh.value != identity.value.refresh) {
        return Cancelled, None;
      }
      session.state := Fence.Step(session.state, Fence.DeletionBegan);
      var captured := DeletionCredentials(session.state.generation, identity.value, session.state.refresh);
      outcome, credentials := Done, Some(captured);
    }

    /** First locked section of a deletion's own refresh. */
    method BeginDeletionRefresh(credentials: DeletionCredentials) returns (outcome: Outcome)
      ensures outcome.Done? <==>
                && credentials.refresh.Some?
                && Fence.DeletionRefreshCurrent(session.state, credentials.generation, credentials.refresh.value)
      ensures outcome in {Done, Cancelled, SignInRequired}
    {
      if !Fence.DeletionCurrent(session.state, credentials.generation) { return Cancelled; }
      if credentials.refresh.None? { return SignInRequired; }
      outcome := if credentials.refresh == session.state.refresh then Done else Cancelled;
    }

    /**
     * Its last locked section: the tokens are stored only while this deletion is current and the
     * identity on record is the one being deleted; the credentials then follow them.
     */
    method FinishDeletionRefresh(credentials: DeletionCredentials, response: Option<TokenResponse>)
      returns (outcome: Outcome, renewed: DeletionCredentials, adopted: bool)
      requires Valid() && credentials.refresh.Some?
      modifies session, session.store, platform
      ensures Valid() && old(platform.log) <= platform.log
      ensures session.store.deletionRefresh == old(session.store.deletionRefresh)
      ensures adopted ==>
                && response.Some?
                && Fence.DeletionRefreshCurrent(old(session.state), credentials.generation, credentials.refresh.value)
                && old(Named(Recovered(platform.world).record)) == Some(credentials.identity)
                && Recovered(platform.world) == ViewOf(Commit(session.store.api, response.value))
                && session.state ==
                   Fence.Step(old(session.state),
                              Fence.DeletionTokensStored(credentials.generation, credentials.refresh.value,
                                                         response.value.access, response.value.refresh))
                && !old(Blocked(platform.world)) && outcome in {Done, StoreError(CommitPending(false))}
      ensures !adopted ==>
                session.state == old(session.state) && Recovered(platform.world) == old(Recovered(platform.world))
      ensures credentials.refresh.Some? &&
              !Fence.DeletionRefreshCurrent(old(session.state), credentials.generation, credentials.refresh.value) ==>
                outcome == Cancelled && platform.world == old(platform.world)
      ensures outcome.Done? ==>
                adopted && renewed == DeletionCredentials(credentials.generation,
                                                          IdentityOf(Commit(session.store.api, response.value)),
                                                          Some(response.value.refresh))
      ensures !outcome.Done? ==> renewed == credentials
      ensures && platform.reliable && response.Some? && !old(Blocked(platform.world))
              && old(session.store.deletionRefresh).None? && credentials.refresh.Some?
              && Fence.DeletionRefreshCurrent(old(session.state), credentials.generation, credentials.refresh.value)
              && old(Deletable(Recovered(platform.world), credentials.identity)) ==>
                outcome.Done?
      ensures old(platform.Disciplined() && platform.Quiet()) ==> platform.Disciplined()
      ensures old(platform.Quiet()) && !outcome.StoreError? ==> platform.Quiet()
      ensures old(platform.Quiet() && Blocked(platform.world)) ==> platform.Quiet()
    {
      outcome, renewed, adopted := Cancelled, credentials, false;
      if !Fence.DeletionRefreshCurrent(session.state, credentials.generation, credentials.refresh.value) { return; }
      var store := session.store;
      if store.deletionRefresh.Some? { return StoreError(Failed), credentials, false; }
      store.deletionRefresh := Some(credentials.identity);
      outcome, adopted := session.AcceptTokens(response);
      store.deletionRefresh := None;
      if outcome.Done? {
        var identity := Identity(store.api, response.value.access, response.value.refresh);
        renewed := DeletionCredentials(credentials.generation, identity, session.state.refresh);
      }
    }

    ghost predicate MatchesSession(identity: Identity)
      reads session
    {
      && session.state.access == Some(identity.access)
      && session.store.api == identity.api
      && (session.state.refresh.Some? ==> session.state.refresh.value == identity.refresh)
    }

    /** Before the request that deletes the account: a durable marker for exactly this identity. */
    method PrepareDeletionCleanup(credentials: DeletionCredentials) returns (outcome: Outcome)
      requires Valid()
      modifies this, platform
      ensures Valid() && old(platform.log) <= platform.log
      ensures Recovered(platform.world) == old(Recovered(platform.world))
      ensures outcome.Done? ==>
                && platform.world.marker.visible ==
                     Some(Pending(credentials.identity, credentials.generation))
                && Named(platform.world.record.visible) == Some(credentials.identity)
                && platform.world.journal.visible.None?
      ensures old(Named(Recovered(platform.world).record)) != Some(credentials.identity) ==>
                outcome in {Cancelled, StoreError(Failed), StoreError(CommitPending(true))}
      ensures outcome.StoreError? && platform.world.marker.visible.Some? ==>
                pendingCleanup == old(pendingCleanup) + {credentials.generation}
      ensures !outcome.StoreError? || (platform.reliable && platform.world.marker.visible.None?) ==>
                pendingCleanup == old(pendingCleanup)
      ensures && platform.reliable && old(Deletable(Recovered(platform.world), credentials.identity))
              && old(platform.world.marker.visible) in
                   {None, Some(Pending(credentials.identity, credentials.generation))} ==>
                outcome.Done?
      ensures old(platform.Disciplined() && platform.Quiet()) ==>
                platform.Disciplined()
      ensures old(platform.Quiet()) ==> platform.Quiet()
    {
      var status, identity := session.store.CredentialIdentity();
      if status == Ok && identity != Some(credentials.identity) { return Cancelled; }
      if status == Ok {
        status := WriteMarker(Pending(credentials.identity, credentials.generation));
      }
      if status == Ok { return Done; }
      var owed := MarkerMayExist();
      if owed { pendingCleanup := pendingCleanup + {credentials.generation}; }
      outcome := StoreError(status);
    }

    method WriteMarker(marker: Marker) returns (status: Status)
      requires Valid() && Guard(platform.world, MarkerWritten(marker))
      modifies platform
      ensures Valid() && old(platform.log) <= platform.log
      ensures status in {Ok, Failed}
      ensures Recovered(platform.world) == old(Recovered(platform.world))
      ensures platform.world.record.visible == old(platform.world.record.visible)
      ensures platform.world.journal.visible.None?
      ensures status == Ok ==> platform.world.marker.visible == Some(marker)
      ensures platform.reliable && old(platform.world.marker.visible) in {None, Some(marker)} && marker.Pending? ==>
                status == Ok
      ensures old(platform.Disciplined() && platform.Quiet()) ==>
                platform.Disciplined()
      ensures old(platform.Quiet()) ==> platform.Quiet()
    {
      var existing;
      status, existing := ReadMarker();
      if status != Ok || existing == Some(marker) { return; }
      if existing.Some? { status := Failed; return; }
      status := PutMarker(marker);
    }

    /** The account is gone: confirm it durably, rearm the marker, clear, drop the marker. */
    method ResolveDeletionCleanup(identity: Identity, generation: int) returns (status: Status, resolved: bool)
      requires Valid()
      modifies platform
      ensures Valid() && old(platform.log) <= platform.log
      ensures old(Named(Recovered(platform.world).record)) !in {None, Some(identity)} ==>
                !resolved && Recovered(platform.world) == old(Recovered(platform.world))
      ensures old(Named(Recovered(platform.world).record)) == None ==>
                Recovered(platform.world) == old(Recovered(platform.world))
      ensures resolved && old(Named(Recovered(platform.world).record)) == Some(identity) ==>
                status == Ok && DeletionFinished(platform.world)
      ensures resolved ==> platform.world.marker.visible.None?
      ensures platform.reliable && old(Deletable(Recovered(platform.world), identity)) ==> resolved
      // Before anything was cleared, confirmation and marker stood together.
      ensures resolved && old(Named(Recovered(platform.world).record)) == Some(identity) ==>
                platform.Stood(|old(platform.log)|, Pending(identity, generation), Confirmed(identity, generation))
      ensures && platform.reliable && old(SecretIsRecorded(Recovered(platform.world)))
              && old(Named(Recovered(platform.world).record)).None? ==>
                (resolved <==> old(platform.world.marker.visible) in {None, Some(Pending(identity, generation))})
      ensures old(platform.Disciplined() && platform.Quiet()) ==> platform.Disciplined()
      ensures old(platform.Quiet()) && resolved ==> platform.Quiet()
    {
      resolved := false;
      var current;
      status, current := session.store.CredentialIdentity();
      if status != Ok { return; }
      if current.None? {
        status, resolved := SettleAbsentCredentials(Pending(identity, generation));
        return;
      }
      if current != Some(identity) { return; }
      var confirmed;
      status, confirmed := session.store.ConfirmAccountDeletion(generation, identity);
      if status != Ok || !confirmed { return; }
      ghost var later := |platform.log|;
      status, resolved := ClearConfirmed(identity, generation);
      if resolved {
        platform.StoodSince(|old(platform.log)|, later, Pending(identity, generation), Confirmed(identity, generation));
      }
    }

    method ClearConfirmed(identity: Identity, generation: int) returns (status: Status, resolved: bool)
      requires Valid() && platform.world.journal.visible.None?
      requires platform.world.record.visible == Confirmed(identity, generation)
      modifies platform
      ensures Valid() && old(platform.log) <= platform.log
      ensures resolved ==>
                && status == Ok && DeletionFinished(platform.world) && platform.world.marker.visible.None?
                && platform.Stood(|old(platform.log)|, Pending(identity, generation), Confirmed(identity, generation))
      ensures platform.reliable && old(Deletable(Recovered(platform.world), identity)) ==> resolved
      ensures old(platform.Disciplined() && platform.Quiet()) ==> platform.Disciplined()
      ensures old(platform.Quiet()) && resolved ==> platform.Quiet()
    {
      resolved := false;
      status := EnsureMarker(Pending(identity, generation));
      if status != Ok { return; }
      ghost var armed := platform.log;
      var cleared;
      status, cleared := session.store.ClearAccountDeletionCredentials(identity);
      if status != Ok || !cleared { return; }
      status := ClearMarker();
      resolved := status == Ok;
      platform.StoodThen(|old(platform.log)|, armed, Pending(identity, generation), Confirmed(identity, generation));
    }

    /** The marker is written unless it is read as it should be. */
    method EnsureMarker(marker: Marker) returns (status: Status)
      requires Valid() && Guard(platform.world, MarkerWritten(marker)) && marker != Malformed
      modifies platform
      ensures Valid() && old(platform.log) <= platform.log
      ensures platform.world.journal.visible == old(platform.world.journal.visible)
      ensures platform.world.tombstone.visible == old(platform.world.tombstone.visible)
      ensures platform.world.record.visible == old(platform.world.record.visible)
      ensures platform.world.secret == old(platform.world.secret)
      ensures status == Ok ==> platform.world.marker.visible == Some(marker)
      ensures old(platform.Disciplined() && platform.Quiet()) ==> platform.Disciplined()
      ensures old(platform.Quiet()) ==> platform.Quiet()
      ensures platform.reliable ==> status == Ok
    {
      var read, found := ReadMarker();
      if read == Ok && found == Some(marker) { return Ok; }
      status := PutMarker(marker);
    }

    /** Nothing is left to clear; only a marker of this very cleanup is taken away. */
    method SettleAbsentCredentials(cleanup: Marker) returns (status: Status, resolved: bool)
      requires Valid() && cleanup.Pending?
      modifies platform
      ensures Valid() && old(platform.log) <= platform.log
      ensures Recovered(platform.world) == old(Recovered(platform.world))
      ensures resolved ==> status == Ok && platform.world.marker.visible.None?
      ensures status == Ok ==> (resolved <==> old(platform.world.marker.visible) in {None, Some(cleanup)})
      ensures old(platform.world.marker.visible) != Some(cleanup) ==> platform.world == old(platform.world)
      ensures platform.reliable ==> (status == Ok <==> old(platform.world.marker.visible) != Some(Malformed))
      ensures old(platform.Disciplined() && platform.Quiet()) ==> platform.Disciplined()
      ensures old(platform.Quiet()) && status == Ok ==> platform.Quiet()
    {
      resolved := false;
      var current;
      status, current := ReadMarker();
      if status != Ok { return; }
      if current.None? { resolved := true; return; }
      if current != Some(cleanup) { return; }
      status := ClearMarker();
      resolved := status == Ok;
    }

    /**
     * Finish whatever cleanup is owed. With nothing failing, one call finishes an owed deletion
     * from every state it can be in, whatever became of the marker; the one exception is a
     * malformed marker left beside credentials that are already gone.
     */
    method ResolvePendingDeletionCleanup() returns (status: Status, cleaned: Option<Identity>)
      requires Valid()
      modifies platform
      ensures Valid() && old(platform.log) <= platform.log
      ensures forall id ::
                platform.reliable && old(DeletionOwed(platform.world, id)) ==>
                  && DeletionFinished(platform.world)
                  && (status == Ok <==>
                        old(platform.world.marker.visible) != Some(Malformed) ||
                        old(platform.world.record.visible).Confirmed?)
                  && (status == Ok ==> platform.world.marker.visible.None?)
      // Credentials change hands only for the identity the marker or the record names.
      ensures var before := old(Recovered(platform.world));
              var marker := old(platform.world.marker.visible);
              Recovered(platform.world) != before ==>
                && Named(before.record).Some?
                && (before.record.Confirmed? ||
                    (marker.Some? && marker.value.Pending? && marker.value.id == Named(before.record).value))
      ensures cleaned.Some? ==> status == Ok
      ensures status == Ok ==> platform.world.marker.visible.None?
      ensures status == Ok ==> cleaned == Owed(old(platform.world))
      ensures platform.reliable ==> (status == Ok <==> Retryable(old(platform.world)))
      ensures old(platform.Disciplined() && platform.Quiet()) ==> platform.Disciplined()
      ensures old(platform.Quiet()) && status == Ok ==> platform.Quiet()
    {
      cleaned := None;
      var obligation;
      status, obligation := PendingOrConfirmedCleanup();
      if status != Ok || obligation.None? { return; }
      if obligation.value.LegacyMarker? {
        status := RetireLegacyMarker();
        return;
      }
      var cleared;
      status, cleared := session.store.ClearAccountDeletionCredentials(obligation.value.id);
      if status != Ok { return; }
      if !cleared { status := CleanupPending; return; }
      status := ClearMarker();
      if status == Ok { cleaned := Some(obligation.value.id); }
    }

    /** A confirmed record outranks the marker and rewrites it, malformed or lost. */
    method PendingOrConfirmedCleanup() returns (status: Status, obligation: Option<Marker>)
      requires Valid()
      modifies platform
      ensures Valid() && old(platform.log) <= platform.log
      ensures Recovered(platform.world) == old(Recovered(platform.world))
      ensures status == Ok ==>
                && platform.world.journal.visible.None?
                && obligation == platform.world.marker.visible
                && obligation != Some(Malformed)
                && (platform.world.record.visible.Confirmed? ==>
                      obligation == Some(Pending(platform.world.record.visible.id,
                                                 platform.world.record.visible.generation)))
                && (!platform.world.record.visible.Confirmed? ==>
                      obligation == old(platform.world.marker.visible))
      ensures old(platform.world.journal.visible).None?
              && old(DeletionFinished(platform.world)) ==>
                DeletionFinished(platform.world)
      ensures (&& platform.reliable
               && old(platform.world.journal.visible).None?
               && (old(platform.world.record.visible).Confirmed? &&
                   old(platform.world.secret).Some? ==>
                     StoredMatches(old(platform.world.secret).value,
                                   old(platform.world.record.visible).id))) ==>
                (status == Ok <==> old(platform.world.marker.visible) != Some(Malformed) ||
                                   old(platform.world.record.visible).Confirmed?)
      ensures platform.reliable ==>
                var v := old(Recovered(platform.world));
                (status == Ok <==> if v.record.Confirmed? then SecretIsRecorded(v)
                                   else old(platform.world.marker.visible) != Some(Malformed))
      ensures old(platform.Disciplined() && platform.Quiet()) ==> platform.Disciplined()
      ensures old(platform.Quiet()) && status == Ok ==> platform.Quiet()
    {
      obligation := None;
      var read, marker := ReadMarker();
      var generation;
      status, generation := session.store.ConfirmedGeneration();
      if status != Ok { return; }
      if generation.None? {
        status, obligation := read, marker;
        return;
      }
      var identity;
      status, identity := session.store.CredentialIdentity();
      if status != Ok { return; }
      obligation := Some(Pending(identity.value, generation.value));
      if marker != obligation {
        status := PutMarker(obligation.value);
      }
    }

    method RetireLegacyMarker() returns (status: Status)
      requires Valid() && platform.world.journal.visible.None?
      modifies platform
      ensures Valid() && old(platform.log) <= platform.log
      ensures Recovered(platform.world) == old(Recovered(platform.world))
      ensures old(DeletionFinished(platform.world)) ==> DeletionFinished(platform.world)
      ensures status == Ok ==>
                Named(platform.world.record.visible).None? &&
                platform.world.marker.visible.None?
      ensures (&& platform.reliable
               && old(platform.world.secret).None?
               && old(Named(platform.world.record.visible)).None?) ==> status == Ok
      ensures status == Ok ==> old(Named(platform.world.record.visible)).None? && old(platform.world.secret).None?
      ensures old(platform.Disciplined() && platform.Quiet()) ==> platform.Disciplined()
      ensures old(platform.Quiet()) && status == Ok ==> platform.Quiet()
    {
      var identity;
      status, identity := session.store.CredentialIdentity();
      if status != Ok { return; }
      if identity.Some? { status := CleanupPending; return; }
      status := ClearMarker();
    }

    /** What every authenticated call does first; signs the session out if it was the deleted one. */
    method RetryDeletionCleanup() returns (status: Status)
      requires Valid()
      modifies session, platform
      ensures Valid() && old(platform.log) <= platform.log
      ensures Fence.CleanedUp(old(session.state), session.state)
      ensures status != Ok ==> session.state == old(session.state)
      ensures forall id ::
                platform.reliable && old(DeletionOwed(platform.world, id)) ==> DeletionFinished(platform.world)
      ensures status == Ok ==> platform.world.marker.visible.None?
      ensures old(Owed(platform.world)).None? ==> Recovered(platform.world) == old(Recovered(platform.world))
      ensures status == Ok ==> session.state == AfterCleanup(old(session.state), Owed(old(platform.world)))
      ensures platform.reliable ==> (status == Ok <==> Retryable(old(platform.world)))
      ensures old(platform.Disciplined() && platform.Quiet()) ==> platform.Disciplined()
      ensures old(platform.Quiet()) && status == Ok ==> platform.Quiet()
    {
      ghost var before := session.state;
      assert before in {before, Fence.Step(before, Fence.DeletionCleanedUp(0, 0))};
      var cleaned;
      status, cleaned := ResolvePendingDeletionCleanup();
      if status == Ok && cleaned.Some? {
        var event := Fence.DeletionCleanedUp(cleaned.value.access, cleaned.value.refresh);
        session.state := Fence.Step(session.state, event);
      }
    }

    /**
     * What became of a deletion whose session moved on: under a new generation only its own marker
     * goes, under the same one it is finished. It is remembered exactly while some of that failed.
     */
    ghost predicate StaleSettled(credentials: DeletionCredentials, before: World, pending: set<nat>)
      reads this, session, session.store, platform
    {
      var g, cleanup := credentials.generation, Pending(credentials.identity, credentials.generation);
      if g != session.state.generation then
        && Recovered(platform.world) == Recovered(before)
        && pendingCleanup in {pending - {g}, pending + {g}}
        && (g !in pendingCleanup ==> platform.world.marker.visible != Some(cleanup))
        && (platform.reliable && before.marker.visible != Some(Malformed) ==> g !in pendingCleanup)
      else
        && pendingCleanup in {pending, pending + {g}}
        && (platform.reliable && Deletable(Recovered(before), credentials.identity) ==>
              pendingCleanup == pending && DeletionFinished(platform.world) && platform.world.marker.visible.None?)
    }

    /** The request succeeded. A deletion whose session has moved on only loses its marker. */
    method FinishRemoteDeletion(credentials: DeletionCredentials) returns (outcome: Outcome)
      requires Valid()
      modifies this, platform
      ensures Valid() && old(platform.log) <= platform.log
      ensures old(Named(Recovered(platform.world).record)) !in {None, Some(credentials.identity)} ==>
                Recovered(platform.world) == old(Recovered(platform.world))
      ensures outcome.Done? ==>
                && Fence.DeletionCurrent(session.state, credentials.generation)
                && platform.world.marker.visible.None?
                && (old(Named(Recovered(platform.world).record)) == Some(credentials.identity) ==>
                      DeletionFinished(platform.world))
      ensures Fence.DeletionCurrent(session.state, credentials.generation) ==>
                && pendingCleanup == old(pendingCleanup) + {credentials.generation}
                && outcome in {Done, StoreError(CleanupPending)}
                && (platform.reliable && old(Deletable(Recovered(platform.world), credentials.identity)) ==>
                      outcome.Done?)
      ensures credentials.generation != session.state.generation ==>
                Recovered(platform.world) == old(Recovered(platform.world))
      ensures old(platform.Disciplined() && platform.Quiet()) ==> platform.Disciplined()
      ensures old(platform.Quiet()) && outcome.Done? ==> platform.Quiet()
      ensures !Fence.DeletionCurrent(session.state, credentials.generation) ==>
                outcome == Cancelled && StaleSettled(credentials, old(platform.world), old(pendingCleanup))
    {
      if !Fence.DeletionCurrent(session.state, credentials.generation) {
        SettleStaleCleanup(credentials);
        return Cancelled;
      }
      pendingCleanup := pendingCleanup + {credentials.generation};
      var status, resolved := ResolveDeletionCleanup(credentials.identity, credentials.generation);
      outcome := if resolved then Done else StoreError(CleanupPending);
    }

    /** The service refused the request: the account is still there, and the marker goes. */
    method RefuseDeletion(credentials: DeletionCredentials) returns (outcome: Outcome)
      requires Valid()
      modifies this, platform
      ensures Valid() && old(platform.log) <= platform.log
      ensures outcome in {RequestFailed, StoreError(CleanupPending)}
      ensures Recovered(platform.world) == old(Recovered(platform.world))
      ensures var marker := Some(Pending(credentials.identity, credentials.generation));
              && (outcome.RequestFailed? ==> platform.world.marker.visible != marker)
              && (old(platform.world.marker.visible) != marker ==> platform.world == old(platform.world))
      ensures pendingCleanup ==
                if outcome.StoreError? then old(pendingCleanup) + {credentials.generation} else old(pendingCleanup)
      ensures platform.reliable && old(platform.world.marker.visible) != Some(Malformed) ==> outcome.RequestFailed?
      ensures old(platform.Disciplined() && platform.Quiet()) ==> platform.Disciplined()
      ensures old(platform.Quiet()) && !outcome.StoreError? ==> platform.Quiet()
    {
      var status := RemoveMarker(Pending(credentials.identity, credentials.generation));
      if status == Ok { return RequestFailed; }
      pendingCleanup := pendingCleanup + {credentials.generation};
      outcome := StoreError(CleanupPending);
    }

    /**
     * Nobody knows whether the request arrived: the account is taken for deleted. Whatever fails
     * here is only remembered; the caller is told of the request alone.
     */
    method SecureUncertainDeletion(credentials: DeletionCredentials) returns (outcome: Outcome)
      requires Valid()
      modifies this, platform
      ensures Valid() && old(platform.log) <= platform.log && outcome.RequestFailed?
      ensures old(Named(Recovered(platform.world).record)) !in {None, Some(credentials.identity)} ==>
                Recovered(platform.world) == old(Recovered(platform.world))
      ensures credentials.generation != session.state.generation ==>
                Recovered(platform.world) == old(Recovered(platform.world))
      ensures !Fence.DeletionCurrent(session.state, credentials.generation) ==>
                StaleSettled(credentials, old(platform.world), old(pendingCleanup))
      ensures Fence.DeletionCurrent(session.state, credentials.generation) ==>
                && pendingCleanup == old(pendingCleanup) + {credentials.generation}
                && (platform.reliable && old(Deletable(Recovered(platform.world), credentials.identity)) ==>
                      DeletionFinished(platform.world) && platform.world.marker.visible.None?)
      ensures old(platform.Disciplined() && platform.Quiet()) ==> platform.Disciplined()
    {
      outcome := RequestFailed;
      if !Fence.DeletionCurrent(session.state, credentials.generation) {
        SettleStaleCleanup(credentials);
        return;
      }
      var status, resolved := ResolveDeletionCleanup(credentials.identity, credentials.generation);
      pendingCleanup := pendingCleanup + {credentials.generation};
    }

    method SettleStaleCleanup(credentials: DeletionCredentials)
      requires Valid()
      modifies this, platform
      ensures Valid() && old(platform.log) <= platform.log
      ensures old(Named(Recovered(platform.world).record)) !in {None, Some(credentials.identity)} ==>
                Recovered(platform.world) == old(Recovered(platform.world))
      ensures StaleSettled(credentials, old(platform.world), old(pendingCleanup))
      ensures old(platform.Disciplined() && platform.Quiet()) ==> platform.Disciplined()
    {
      if credentials.generation != session.state.generation {
        pendingCleanup := pendingCleanup - {credentials.generation};
        var removed := RemoveMarker(Pending(credentials.identity, credentials.generation));
        if removed != Ok { pendingCleanup := pendingCleanup + {credentials.generation}; }
        assert old(pendingCleanup) - {credentials.generation} + {credentials.generation}
               == old(pendingCleanup) + {credentials.generation};
        return;
      }
      var status, _ := ResolveDeletionCleanup(credentials.identity, credentials.generation);
      if status != Ok { pendingCleanup := pendingCleanup + {credentials.generation}; }
    }

    method RemoveMarker(cleanup: Marker) returns (status: Status)
      requires Valid()
      modifies platform
      ensures Valid() && old(platform.log) <= platform.log
      ensures Recovered(platform.world) == old(Recovered(platform.world))
      ensures status == Ok ==> platform.world.marker.visible != Some(cleanup)
      ensures old(platform.world.marker.visible) != Some(cleanup) ==>
                platform.world == old(platform.world)
      ensures old(platform.Disciplined() && platform.Quiet()) ==> platform.Disciplined()
      ensures old(platform.Quiet()) && status == Ok ==> platform.Quiet()
      ensures platform.reliable && old(platform.world.marker.visible) != Some(Malformed) ==> status == Ok
    {
      var marker;
      status, marker := ReadMarker();
      if status != Ok || marker != Some(cleanup) { return; }
      status := ClearMarker();
    }

    method CompleteDeletion(generation: nat) returns (completed: bool)
      modifies this, session
      ensures session.state == Fence.Step(old(session.state), Fence.DeletionCompleted(generation))
      ensures completed <==> Fence.DeletionCurrent(old(session.state), generation)
      ensures pendingCleanup == if completed then old(pendingCleanup) - {generation} else old(pendingCleanup)
    {
      completed := Fence.DeletionCurrent(session.state, generation);
      if completed {
        session.state := Fence.Cleared(Fence.Fenced(session.state));
        pendingCleanup := pendingCleanup - {generation};
      }
    }

    /** A failed deletion keeps the session unless local cleanup is still owed. */
    method FailDeletion(generation: nat) returns (settled: bool)
      requires Valid()
      modifies this, session
      ensures settled <==> Fence.DeletionCurrent(old(session.state), generation)
      ensures exists owed: bool ::
                session.state == Fence.Step(old(session.state), Fence.DeletionFailed(generation, owed))
      ensures settled && (generation in old(pendingCleanup) || platform.world.marker.visible.Some?) ==>
                session.state == Fence.Step(old(session.state), Fence.DeletionFailed(generation, true))
      ensures settled && generation !in old(pendingCleanup) && platform.reliable
              && platform.world.marker.visible.None? ==>
                session.state == Fence.Step(old(session.state), Fence.DeletionFailed(generation, false))
      ensures pendingCleanup == if session.state.generation != old(session.state).generation
                                then old(pendingCleanup) - {generation} else old(pendingCleanup)
    {
      settled := Fence.DeletionCurrent(session.state, generation);
      var owed := generation in pendingCleanup;
      if settled && !owed { owed := MarkerMayExist(); }
      session.state := Fence.Step(session.state, Fence.DeletionFailed(generation, owed));
      if settled && owed { pendingCleanup := pendingCleanup - {generation}; }
    }

    // ----- Sign-out -----

    /** What is to be revoked: the session's tokens, or else the refresh token that is stored. */
    method LogoutCredentials() returns (status: Status, revoked: Revocation)
      requires Valid()
      modifies platform
      ensures Valid() && old(platform.log) <= platform.log
      ensures status in {Ok, Failed, CommitPending(true)}
      ensures Recovered(platform.world) == old(Recovered(platform.world))
      ensures status == Ok ==> revoked == ToRevoke(session.state, Recovered(platform.world))
      ensures platform.reliable ==> status == Ok
      ensures old(platform.Disciplined() && platform.Quiet()) ==> platform.Disciplined()
      ensures old(platform.Quiet()) ==> platform.Quiet()
    {
      status, revoked := Ok, Revocation(session.state.access, session.state.refresh);
      if session.state.access.None? && session.state.refresh.None? {
        var loaded, stored := session.store.LoadStored();
        status := loaded;
        if stored.Some? { revoked := Revocation(None, Some(stored.value.refresh)); }
      }
    }

    /** Memory is signed out exactly when the store is, durably cleaned up or not. */
    method SignOut() returns (outcome: Outcome, revoked: Revocation)
      requires Valid()
      modifies session, platform
      ensures Valid() && old(platform.log) <= platform.log
      ensures outcome.Done? ==> SignedOutForGood(platform.world)
      ensures outcome in {Done, StoreError(CleanupPending)} ==>
                && Loadable(Recovered(platform.world)) == None
                && !session.state.authenticated && session.state.access.None? && session.state.refresh.None?
                && session.state.generation > old(session.state).generation
                && !session.state.signOutPending
      ensures outcome !in {Done, StoreError(CleanupPending)} ==> Fence.CleanedUp(old(session.state), session.state)
      ensures outcome in {Done, StoreError(CleanupPending)} ==>
                session.state ==
                  Fence.Step(AfterCleanup(old(session.state), Owed(old(platform.world))), Fence.SignedOut)
      ensures outcome in {Done, StoreError(CleanupPending)} ==>
                var s := AfterCleanup(old(session.state), Owed(old(platform.world)));
                && (s.access.Some? || s.refresh.Some? ==> revoked == Revocation(s.access, s.refresh))
                && (old(Owed(platform.world)).None? ==> revoked == ToRevoke(s, Recovered(old(platform.world))))
      ensures platform.reliable ==> (outcome.Done? <==> Retryable(old(platform.world)))
      ensures old(platform.Disciplined() && platform.Quiet()) ==> platform.Disciplined()
      ensures old(platform.Quiet()) && !outcome.StoreError? ==> platform.Quiet()
    {
      revoked := NOTHING_TO_REVOKE;
      CleanupRaisesGeneration(session.state, Owed(platform.world));
      var status := RetryDeletionCleanup();
      if status != Ok {
        return StoreError(Failed), revoked;
      }
      status, revoked := LogoutCredentials();
      if status != Ok { return StoreError(status), revoked; }
      status := session.store.Clear();
      if status !in {Ok, CleanupPending} { return StoreError(Failed), revoked; }
      session.state := Fence.Step(session.state, Fence.SignedOut);
      outcome := if status == Ok then Done else StoreError(CleanupPending);
    }

    /** After a 401: the store is cleared if it lets itself be, memory in any case. Nothing is told. */
    method ExpireSession() returns (outcome: Outcome)
      requires Valid()
      modifies session, platform
      ensures Valid() && old(platform.log) <= platform.log && outcome.Done?
      ensures session.state == Fence.Step(old(session.state), Fence.Expired)
      ensures || Recovered(platform.world) == old(Recovered(platform.world))
              || Loadable(Recovered(platform.world)) == None
      ensures platform.reliable ==> DeletionFinished(platform.world) && SignedOutForGood(platform.world)
      ensures old(platform.Disciplined() && platform.Quiet()) ==> platform.Disciplined()
      ensures old(platform.Quiet()) ==> platform.Quiet()
    {
      var status := session.store.Clear();
      session.state := Fence.Step(session.state, Fence.Expired);
      outcome := Done;
    }

    /** At every start and after a failed sign-out: owed cleanup first, then what a tombstone left behind. */
    method RetrySignOutCleanup(generation: nat) returns (outcome: Outcome)
      requires Valid()
      modifies session, platform
      ensures Valid() && old(platform.log) <= platform.log
      ensures outcome in {Done, Cancelled} || outcome.StoreError?
      ensures Fence.CleanedUp(old(session.state), session.state)
      ensures outcome.Done? ==>
                && platform.world.marker.visible.None?
                && (platform.world.tombstone.visible ==>
                      DeletionFinished(platform.world) && SignedOutForGood(platform.world))
      ensures !outcome.StoreError? ==>
                session.state == AfterCleanup(old(session.state), Owed(old(platform.world)))
      ensures platform.reliable ==>
                && (!outcome.StoreError? <==> Retryable(old(platform.world)))
                && (!outcome.StoreError? ==> (outcome.Done? <==> LeftOver(generation)))
      ensures old(platform.Disciplined() && platform.Quiet()) ==> platform.Disciplined()
      ensures old(platform.Quiet()) && !outcome.StoreError? ==> platform.Quiet()
    {
      ghost var before := session.state;
      var status := RetryDeletionCleanup();
      assert before in {before, Fence.Step(before, Fence.DeletionCleanedUp(0, 0))};
      ghost var a, r :| session.state in {before, Fence.Step(before, Fence.DeletionCleanedUp(a, r))};
      if status != Ok { return StoreError(status); }
      var marker;
      status, marker := ReadMarker();
      if status != Ok { return StoreError(status); }
      var now := session.state;
      if marker.Some? || now.shuttingDown || generation != now.generation || now.authenticated
         || now.access.Some? || now.refresh.Some? {
        return Cancelled;
      }
      status := session.store.ClearIfSignedOut();
      outcome := if status == Ok then Done else StoreError(status);
    }

    ghost predicate LeftOver(generation: nat)
      reads session
    {
      && !session.state.shuttingDown && generation == session.state.generation && !session.state.authenticated
      && session.state.access.None? && session.state.refresh.None?
    }
  }
}
