/** Any sequence of the client's calls, with power losses between them. */
module AccountCalls {
  import opened Prelude
  import opened CredentialModel
  import opened CredentialSafety
  import opened CredentialPlatform
  import opened TokenStorage
  import opened AccountSession
  import Fence = SessionFence

  datatype SessionCall =
    | Accepting(login: Option<TokenResponse>)
    | Loading
    | RefreshBeginning(generation: nat, accessIsFresh: bool)
    | RefreshEnding(generation: nat, response: Option<TokenResponse>)
    | RefreshFailing(generation: nat, unauthorized: bool)
    | AccessDropping(generation: nat)
    | Restoring(succeeded: bool)
    | Expiring
    | SignOutPreparing
    | SigningOut
    | LeftoverClearing(generation: nat)

  datatype DeletionCall =
    | Retrying
    | Beginning(confirmation: bool)
    | Preparing(credentials: DeletionCredentials)
    | RefreshBeginning(credentials: DeletionCredentials)
    | RefreshEnding(credentials: DeletionCredentials, renewal: Option<TokenResponse>)
    | Finishing(credentials: DeletionCredentials)
    | Refused(credentials: DeletionCredentials)
    | Uncertain(credentials: DeletionCredentials)
    | Completing(generation: nat)
    | Failing(generation: nat)

  /** A power loss ends the process; the next one starts with what is left on disk. */
  datatype Call = Session(session: SessionCall) | Deletion(deletion: DeletionCall) | PowerFailing

  datatype Moment = Moment(world: World, session: Fence.Session)

  // ----- What a call does -----

  ghost predicate Unchanged(before: Moment, after: Moment) {
    after.session == before.session && Recovered(after.world) == Recovered(before.world)
  }

  ghost predicate Stepped(before: Moment, after: Moment, event: Fence.Event) {
    after == before.(session := Fence.Step(before.session, event))
  }

  ghost predicate Adopted(api: ApiBase, response: TokenResponse, before: Moment, after: Moment) {
    && after.session == before.session.(access := Some(response.access), refresh := Some(response.refresh))
    && Recovered(after.world) == ViewOf(Commit(api, response))
    && !Blocked(before.world)
  }

  /** The tokens are taken, or nothing is changed and the call says so. */
  ghost predicate Answered(api: ApiBase, response: Option<TokenResponse>, outcome: Outcome, before: Moment,
                           after: Moment) {
    || (Unchanged(before, after) && !outcome.Done?)
    || (&& response.Some? && Adopted(api, response.value, before, after)
        && outcome in {Done, StoreError(CommitPending(false))})
  }

  /** Nobody but the identity being deleted loses credentials, and nobody at all to a stale deletion. */
  ghost predicate Spares(credentials: DeletionCredentials, before: Moment, after: Moment) {
    && after.session == before.session
    && (|| Named(Recovered(before.world).record) !in {None, Some(credentials.identity)}
        || credentials.generation != before.session.generation ==>
          Recovered(after.world) == Recovered(before.world))
  }

  ghost predicate SessionTook(call: SessionCall, outcome: Outcome, api: ApiBase, reliable: bool, before: Moment,
                              after: Moment) {
    match call
    case Accepting(response) =>
      && Answered(api, response, outcome, before, after)
      && (reliable && response.Some? && !Blocked(before.world) ==> outcome.Done?)
    case Loading => Unchanged(before, after) && (reliable ==> !outcome.StoreError?)
    case RefreshBeginning(generation, isFresh) =>
      && Unchanged(before, after)
      && (if !Fence.Current(before.session, generation) then outcome == Cancelled && after == before
          else if before.session.access.Some? && isFresh then outcome.Done? && after == before
          else
            var stored := Loadable(Recovered(before.world));
            && (outcome in {Done, SignInRequired} || outcome.StoreError?)
            && (outcome == SignInRequired ==> stored.None? || stored.value.api != api)
            && (reliable ==> !outcome.StoreError?))
    case RefreshEnding(generation, response) =>
      if Fence.Current(before.session, generation) then
        && Answered(api, response, outcome, before, after)
        && (reliable && response.Some? && !Blocked(before.world) ==> outcome.Done?)
      else outcome == Cancelled && after == before
    case RefreshFailing(generation, unauthorized) =>
      && after.session == before.session
      && (if !Fence.Current(before.session, generation) then outcome == Cancelled && after == before
          else if !unauthorized then outcome.Done? && after == before
          else (outcome.Done? ==> SignedOutForGood(after.world)) && (reliable ==> outcome.Done?))
    case AccessDropping(generation) => Stepped(before, after, Fence.AccessDropped(generation))
    case Restoring(succeeded) =>
      Stepped(before, after, if succeeded then Fence.Authenticated else Fence.RestoreFailed)
    case Expiring =>
      && after.session == Fence.Step(before.session, Fence.Expired)
      && (Recovered(after.world) == Recovered(before.world) || Loadable(Recovered(after.world)) == None)
      && (reliable ==> SignedOutForGood(after.world))
    case SignOutPreparing => Stepped(before, after, Fence.SignOutPrepared)
    case SigningOut =>
      && (outcome.Done? ==> SignedOutForGood(after.world))
      && (outcome in {Done, StoreError(CleanupPending)} ==>
            && Loadable(Recovered(after.world)) == None
            && after.session == Fence.Step(AfterCleanup(before.session, Owed(before.world)), Fence.SignedOut))
      && (outcome !in {Done, StoreError(CleanupPending)} ==> Fence.CleanedUp(before.session, after.session))
      && (reliable ==> (outcome.Done? <==> Retryable(before.world)))
    case LeftoverClearing(_) =>
      && Fence.CleanedUp(before.session, after.session)
      && (outcome.Done? && after.world.tombstone.visible ==> SignedOutForGood(after.world))
      && (!outcome.StoreError? ==> after.session == AfterCleanup(before.session, Owed(before.world)))
      && (reliable ==> (!outcome.StoreError? <==> Retryable(before.world)))
  }

  ghost predicate DeletionTook(call: DeletionCall, outcome: Outcome, api: ApiBase, reliable: bool, before: Moment,
                               after: Moment) {
    match call
    case Retrying =>
      && Fence.CleanedUp(before.session, after.session)
      && (outcome.Done? ==> after.session == AfterCleanup(before.session, Owed(before.world)))
      && (forall id :: reliable && DeletionOwed(before.world, id) ==> DeletionFinished(after.world))
      && (reliable ==> (outcome.Done? <==> Retryable(before.world)))
    case Beginning(confirmation) =>
      !Fence.CleanedUp(before.session, after.session) ==>
        && confirmation && outcome.Done? && after.session.deletingAccount
        && Named(after.world.record.visible).Some?
        && after.session.access == Some(Named(after.world.record.visible).value.access)
    case Preparing(credentials) =>
      && Unchanged(before, after)
      && (outcome.Done? ==>
            && after.world.marker.visible == Some(Pending(credentials.identity, credentials.generation))
            && Named(after.world.record.visible) == Some(credentials.identity))
      && (&& reliable && Deletable(Recovered(before.world), credentials.identity)
          && before.world.marker.visible in {None, Some(Pending(credentials.identity, credentials.generation))} ==>
            outcome.Done?)
    case RefreshBeginning(_) => after == before
    case RefreshEnding(credentials, renewal) =>
      if credentials.refresh.Some? &&
         Fence.DeletionRefreshCurrent(before.session, credentials.generation, credentials.refresh.value)
      then
        && Answered(api, renewal, outcome, before, after)
        && (!Unchanged(before, after) ==> Named(Recovered(before.world).record) == Some(credentials.identity))
        && (&& reliable && renewal.Some? && !Blocked(before.world)
            && Deletable(Recovered(before.world), credentials.identity) ==>
              outcome.Done?)
      else !outcome.Done? && after == before
    case Finishing(credentials) =>
      && Spares(credentials, before, after)
      && (outcome.Done? ==>
            && Fence.DeletionCurrent(before.session, credentials.generation) && after.world.marker.visible.None?
            && (Named(Recovered(before.world).record) == Some(credentials.identity) ==> DeletionFinished(after.world)))
      && (outcome == Cancelled <==> !Fence.DeletionCurrent(before.session, credentials.generation))
      && (&& reliable && Fence.DeletionCurrent(before.session, credentials.generation)
          && Deletable(Recovered(before.world), credentials.identity) ==>
            outcome.Done?)
    case Refused(credentials) =>
      && Unchanged(before, after)
      && (!outcome.StoreError? ==>
            after.world.marker.visible != Some(Pending(credentials.identity, credentials.generation)))
      && (reliable && before.world.marker.visible != Some(Malformed) ==> !outcome.StoreError?)
    case Uncertain(credentials) =>
      && Spares(credentials, before, after)
      && (&& reliable && Fence.DeletionCurrent(before.session, credentials.generation)
          && Deletable(Recovered(before.world), credentials.identity) ==>
            DeletionFinished(after.world) && after.world.marker.visible.None?)
    case Completing(generation) => Stepped(before, after, Fence.DeletionCompleted(generation))
    case Failing(generation) =>
      exists owed: bool :: Stepped(before, after, Fence.DeletionFailed(generation, owed))
  }

  ghost predicate Took(call: Call, outcome: Outcome, api: ApiBase, reliable: bool, before: Moment, after: Moment) {
    match call
    case Session(s) => SessionTook(s, outcome, api, reliable, before, after)
    case Deletion(d) => DeletionTook(d, outcome, api, reliable, before, after)
    case PowerFailing =>
      && after.session == Fence.AT_START
      && exists j, t, r, m ::
           Guard(before.world, PowerLost(j, t, r, m)) && after.world == Apply(before.world, PowerLost(j, t, r, m))
  }

  /**
   * The calls that may end with something unsynced that a power loss can still undo: those that
   * write a journal or remove a marker and report a store error, and the two that keep it to
   * themselves, a deletion gone stale and a deletion request without an answer.
   */
  ghost predicate MayUnsettle(call: Call, outcome: Outcome, before: Moment) {
    match call
    case Session(s) =>
      if s.Accepting? || s.RefreshEnding? then outcome.StoreError? && !Blocked(before.world)
      else (s.SigningOut? || s.LeftoverClearing?) && outcome.StoreError?
    case Deletion(d) =>
      if d.RefreshEnding? then outcome.StoreError? && !Blocked(before.world)
      else if d.Finishing? then !outcome.Done?
      else d.Uncertain? || ((d.Retrying? || d.Beginning? || d.Refused?) && outcome.StoreError?)
    case PowerFailing => false
  }

  // ----- One call -----

  ghost function Now(lifecycle: AccountLifecycle): Moment
    reads lifecycle, lifecycle.session, lifecycle.platform
  {
    Moment(lifecycle.platform.world, lifecycle.session.state)
  }

  ghost predicate Ready(lifecycle: AccountLifecycle)
    reads lifecycle, lifecycle.session, lifecycle.session.store, lifecycle.platform
  {
    lifecycle.Valid() && lifecycle.session.store.deletionRefresh.None?
  }

  method PerformSession(lifecycle: AccountLifecycle, call: SessionCall) returns (outcome: Outcome)
    requires Ready(lifecycle)
    modifies lifecycle.session, lifecycle.platform
    ensures Ready(lifecycle) && old(lifecycle.platform.log) <= lifecycle.platform.log
    ensures SessionTook(call, outcome, lifecycle.session.store.api, lifecycle.platform.reliable, old(Now(lifecycle)),
                        Now(lifecycle))
    ensures old(lifecycle.platform.Disciplined() && lifecycle.platform.Quiet()) ==> lifecycle.platform.Disciplined()
    ensures old(lifecycle.platform.Quiet()) && !MayUnsettle(Session(call), outcome, old(Now(lifecycle))) ==>
              lifecycle.platform.Quiet()
  {
    var session := lifecycle.session;
    outcome := Done;
    match call {
      case Accepting(response) => var ended, _ := session.AcceptTokens(response); outcome := ended;
      case Loading =>
        var status, _ := session.store.Load();
        if status != Ok { outcome := StoreError(status); }
      case RefreshBeginning(generation, isFresh) =>
        var ended, _ := session.BeginRefresh(generation, isFresh);
        outcome := ended;
      case RefreshEnding(generation, response) =>
        var ended, _ := session.FinishRefresh(generation, response);
        outcome := ended;
      case RefreshFailing(generation, unauthorized) => outcome := session.RefreshFailed(generation, unauthorized);
      case AccessDropping(generation) => outcome := session.DropAccess(generation);
      case Restoring(succeeded) =>
        session.state := Fence.Step(session.state, if succeeded then Fence.Authenticated else Fence.RestoreFailed);
      case Expiring => outcome := lifecycle.ExpireSession();
      case SignOutPreparing => session.state := Fence.Step(session.state, Fence.SignOutPrepared);
      case SigningOut => var ended, _ := lifecycle.SignOut(); outcome := ended;
      case LeftoverClearing(generation) => outcome := lifecycle.RetrySignOutCleanup(generation);
    }
  }

  method PerformDeletion(lifecycle: AccountLifecycle, call: DeletionCall) returns (outcome: Outcome)
    requires Ready(lifecycle)
    modifies lifecycle, lifecycle.session, lifecycle.session.store, lifecycle.platform
    ensures Ready(lifecycle) && old(lifecycle.platform.log) <= lifecycle.platform.log
    ensures DeletionTook(call, outcome, lifecycle.session.store.api, lifecycle.platform.reliable, old(Now(lifecycle)),
                         Now(lifecycle))
    ensures old(lifecycle.platform.Disciplined() && lifecycle.platform.Quiet()) ==> lifecycle.platform.Disciplined()
    ensures old(lifecycle.platform.Quiet()) && !MayUnsettle(Deletion(call), outcome, old(Now(lifecycle))) ==>
              lifecycle.platform.Quiet()
  {
    outcome := Done;
    match call {
      case Retrying =>
        var status := lifecycle.RetryDeletionCleanup();
        if status != Ok { outcome := StoreError(status); }
      case Beginning(confirmation) => var ended, _ := lifecycle.BeginDeletion(confirmation); outcome := ended;
      case Preparing(credentials) => outcome := lifecycle.PrepareDeletionCleanup(credentials);
      case RefreshBeginning(credentials) => outcome := lifecycle.BeginDeletionRefresh(credentials);
      case RefreshEnding(credentials, renewal) =>
        if credentials.refresh.None? { return SignInRequired; }
        var ended, _, _ := lifecycle.FinishDeletionRefresh(credentials, renewal);
        outcome := ended;
      case _ => outcome := EndDeletion(lifecycle, call);
    }
  }

  /** How the request ended, and what the caller makes of it. */
  predicate EndsDeletion(call: DeletionCall) {
    call.Finishing? || call.Refused? || call.Uncertain? || call.Completing? || call.Failing?
  }

  method EndDeletion(lifecycle: AccountLifecycle, call: DeletionCall) returns (outcome: Outcome)
    requires Ready(lifecycle) && EndsDeletion(call)
    modifies lifecycle, lifecycle.session, lifecycle.platform
    ensures Ready(lifecycle) && old(lifecycle.platform.log) <= lifecycle.platform.log
    ensures DeletionTook(call, outcome, lifecycle.session.store.api, lifecycle.platform.reliable, old(Now(lifecycle)),
                         Now(lifecycle))
    ensures old(lifecycle.platform.Disciplined() && lifecycle.platform.Quiet()) ==> lifecycle.platform.Disciplined()
    ensures old(lifecycle.platform.Quiet()) && !MayUnsettle(Deletion(call), outcome, old(Now(lifecycle))) ==>
              lifecycle.platform.Quiet()
  {
    outcome := Done;
    match call {
      case Finishing(credentials) => outcome := lifecycle.FinishRemoteDeletion(credentials);
      case Refused(credentials) => outcome := lifecycle.RefuseDeletion(credentials);
      case Uncertain(credentials) => outcome := lifecycle.SecureUncertainDeletion(credentials);
      case Completing(generation) => var _ := lifecycle.CompleteDeletion(generation);
      case Failing(generation) => var _ := lifecycle.FailDeletion(generation);
    }
  }

  method LosePower(lifecycle: AccountLifecycle)
    requires Ready(lifecycle)
    modifies lifecycle, lifecycle.session, lifecycle.platform
    ensures Ready(lifecycle) && old(lifecycle.platform.log) <= lifecycle.platform.log
    ensures Took(PowerFailing, Done, lifecycle.session.store.api, lifecycle.platform.reliable, old(Now(lifecycle)),
                 Now(lifecycle))
    ensures lifecycle.platform.Quiet() && lifecycle.pendingCleanup == {}
    ensures old(lifecycle.platform.Disciplined()) ==> lifecycle.platform.Disciplined()
  {
    var w := lifecycle.platform.world;
    assert w.journal.visible in w.journal.onDisk && w.tombstone.visible in w.tombstone.onDisk;
    assert w.record.visible in w.record.onDisk && w.marker.visible in w.marker.onDisk;
    var journal :| journal in w.journal.onDisk;
    var tombstone: bool := *;
    if tombstone !in w.tombstone.onDisk { tombstone := w.tombstone.visible; }
    var record :| record in w.record.onDisk;
    var marker :| marker in w.marker.onDisk;
    lifecycle.platform.LosePower(journal, tombstone, record, marker);
    lifecycle.session.state := Fence.AT_START;
    lifecycle.pendingCleanup := {};
  }

  /** One call: what it does, and when it leaves nothing behind for a power loss. */
  method Perform(lifecycle: AccountLifecycle, call: Call) returns (outcome: Outcome)
    requires Ready(lifecycle)
    modifies lifecycle, lifecycle.session, lifecycle.session.store, lifecycle.platform
    ensures Ready(lifecycle) && old(lifecycle.platform.log) <= lifecycle.platform.log
    ensures Took(call, outcome, lifecycle.session.store.api, lifecycle.platform.reliable, old(Now(lifecycle)),
                 Now(lifecycle))
    ensures old(lifecycle.platform.Disciplined() && (lifecycle.platform.Quiet() || call.PowerFailing?)) ==>
              lifecycle.platform.Disciplined()
    ensures (old(lifecycle.platform.Quiet()) || call.PowerFailing?) &&
            !MayUnsettle(call, outcome, old(Now(lifecycle))) ==>
              lifecycle.platform.Quiet()
  {
    outcome := Done;
    match call {
      case Session(s) => outcome := PerformSession(lifecycle, s);
      case Deletion(d) => outcome := PerformDeletion(lifecycle, d);
      case PowerFailing => LosePower(lifecycle);
    }
  }

  // ----- Any sequence of calls -----

  /** The moments between the calls are what each of them makes of the one before. */
  ghost predicate Happened(calls: seq<Call>, outcomes: seq<Outcome>, moments: seq<Moment>, api: ApiBase, reliable: bool)
    requires |outcomes| <= |calls| && |moments| == |outcomes| + 1
  {
    forall i | 0 <= i < |outcomes| :: Took(calls[i], outcomes[i], api, reliable, moments[i], moments[i + 1])
  }

  /** Whatever may have left something unsynced is followed by a power loss, if by anything. */
  ghost predicate EachSettles(calls: seq<Call>, outcomes: seq<Outcome>, moments: seq<Moment>)
    requires |outcomes| <= |calls| && |moments| == |outcomes| + 1
  {
    forall i | 0 <= i < |outcomes| - 1 && MayUnsettle(calls[i], outcomes[i], moments[i]) :: calls[i + 1].PowerFailing?
  }

  /** Between two calls: disciplined so far, and at rest unless the last call may have left something. */
  ghost predicate SettledSoFar(lifecycle: AccountLifecycle, calls: seq<Call>, outcomes: seq<Outcome>,
                               moments: seq<Moment>)
    requires |outcomes| <= |calls| && |moments| == |outcomes| + 1
    reads lifecycle, lifecycle.platform
  {
    EachSettles(calls, outcomes, moments) ==>
      && lifecycle.platform.Disciplined()
      && (lifecycle.platform.Quiet() || LastMayUnsettle(calls, outcomes, moments))
  }

  ghost predicate LastMayUnsettle(calls: seq<Call>, outcomes: seq<Outcome>, moments: seq<Moment>)
    requires |outcomes| <= |calls| && |moments| == |outcomes| + 1
  {
    var n := |outcomes|;
    n > 0 && MayUnsettle(calls[n - 1], outcomes[n - 1], moments[n - 1])
  }

  lemma OneMoreHappened(calls: seq<Call>, outcomes: seq<Outcome>, moments: seq<Moment>, outcome: Outcome,
                        moment: Moment, api: ApiBase, reliable: bool)
    requires |outcomes| < |calls| && |moments| == |outcomes| + 1
    requires Happened(calls, outcomes, moments, api, reliable)
    requires Took(calls[|outcomes|], outcome, api, reliable, moments[|outcomes|], moment)
    ensures Happened(calls, outcomes + [outcome], moments + [moment], api, reliable)
  {
    var later, since := outcomes + [outcome], moments + [moment];
    forall i | 0 <= i < |later| ensures Took(calls[i], later[i], api, reliable, since[i], since[i + 1]) {
      if i < |outcomes| {
        assert Took(calls[i], outcomes[i], api, reliable, moments[i], moments[i + 1]);
      }
    }
  }

  lemma OneMoreSettles(calls: seq<Call>, outcomes: seq<Outcome>, moments: seq<Moment>, outcome: Outcome, moment: Moment)
    requires |outcomes| < |calls| && |moments| == |outcomes| + 1
    requires EachSettles(calls, outcomes + [outcome], moments + [moment])
    ensures EachSettles(calls, outcomes, moments)
    ensures LastMayUnsettle(calls, outcomes, moments) ==> calls[|outcomes|].PowerFailing?
    ensures LastMayUnsettle(calls, outcomes + [outcome], moments + [moment]) <==>
              MayUnsettle(calls[|outcomes|], outcome, moments[|outcomes|])
  {
    var later, since := outcomes + [outcome], moments + [moment];
    forall i | 0 <= i < |outcomes| && MayUnsettle(calls[i], outcomes[i], moments[i])
      ensures calls[i + 1].PowerFailing?
    {
      assert later[i] == outcomes[i] && since[i] == moments[i];
    }
  }

  method PerformNext(lifecycle: AccountLifecycle, calls: seq<Call>, outcomes: seq<Outcome>, ghost moments: seq<Moment>)
    returns (later: seq<Outcome>, ghost since: seq<Moment>)
    requires Ready(lifecycle) && |outcomes| < |calls| && |moments| == |outcomes| + 1
    requires moments[|outcomes|] == Now(lifecycle) && SettledSoFar(lifecycle, calls, outcomes, moments)
    requires Happened(calls, outcomes, moments, lifecycle.session.store.api, lifecycle.platform.reliable)
    modifies lifecycle, lifecycle.session, lifecycle.session.store, lifecycle.platform
    ensures Ready(lifecycle) && old(lifecycle.platform.log) <= lifecycle.platform.log
    ensures |later| == |outcomes| + 1 && outcomes <= later && since == moments + [Now(lifecycle)]
    ensures SettledSoFar(lifecycle, calls, later, since)
    ensures Happened(calls, later, since, lifecycle.session.store.api, lifecycle.platform.reliable)
  {
    var outcome := Perform(lifecycle, calls[|outcomes|]);
    later, since := outcomes + [outcome], moments + [Now(lifecycle)];
    OneMoreHappened(calls, outcomes, moments, outcome, Now(lifecycle), lifecycle.session.store.api,
                    lifecycle.platform.reliable);
    if EachSettles(calls, later, since) { OneMoreSettles(calls, outcomes, moments, outcome, Now(lifecycle)); }
  }

  /**
   * All the calls, one after the other. If each settles, then at no moment, in the middle of a call
   * or between two, could a power loss split the credentials or part a marker from its identity.
   */
  method PerformAll(lifecycle: AccountLifecycle, calls: seq<Call>)
    returns (outcomes: seq<Outcome>, ghost moments: seq<Moment>)
    requires Ready(lifecycle) && lifecycle.platform.Disciplined() && lifecycle.platform.Quiet()
    requires Sound(lifecycle.platform.origin) && MarkerSound(lifecycle.platform.origin)
    modifies lifecycle, lifecycle.session, lifecycle.session.store, lifecycle.platform
    ensures Ready(lifecycle) && |outcomes| == |calls| && |moments| == |calls| + 1
    ensures moments[0] == old(Now(lifecycle)) && moments[|calls|] == Now(lifecycle)
    ensures Happened(calls, outcomes, moments, lifecycle.session.store.api, lifecycle.platform.reliable)
    ensures old(lifecycle.platform.log) <= lifecycle.platform.log
    // Exactly when nothing could be split or parted, on the run itself.
    ensures var p := lifecycle.platform;
            p.Disciplined() <==> NeverSplits(p.origin, p.log) && NeverParts(p.origin, p.log)
    ensures EachSettles(calls, outcomes, moments) ==>
              var p := lifecycle.platform;
              && NeverSplits(p.origin, p.log) && NeverParts(p.origin, p.log)
              && SameResponse(p.world) && MarkerAgrees(p.world)
  {
    outcomes, moments := [], [Now(lifecycle)];
    for i := 0 to |calls|
      invariant Ready(lifecycle) && |outcomes| == i && |moments| == i + 1
      invariant moments[0] == old(Now(lifecycle)) && moments[i] == Now(lifecycle)
      invariant Happened(calls, outcomes, moments, lifecycle.session.store.api, lifecycle.platform.reliable)
      invariant old(lifecycle.platform.log) <= lifecycle.platform.log
      invariant SettledSoFar(lifecycle, calls, outcomes, moments)
    {
      outcomes, moments := PerformNext(lifecycle, calls, outcomes, moments);
    }
    DisciplinedPlatformAgrees(lifecycle.platform);
  }
}
