# Verification of the Pomodorough desktop client's protocols

This project models the stateful protocols beneath the timer client and proves what they promise, in Dafny 4.11.
`dafny verify dfyconfig.toml` checks all of it.

| files | what they model |
|---|---|
| `CredentialModel`, `CredentialSafety`, `CredentialPlatform`, `TokenStore`, `AccountSession`, `AccountCalls` | the crash-safe credential store: journal, keyring secret, tombstone, identity file and deletion marker as directory entries with a visible value and the values a power loss may leave; token acceptance, account deletion and sign-out on top, and any sequence of their calls |
| `SessionFence` | the account generation that fences background workers |
| `RecordStore`, `Replication`, `PeerInterleaving`, `Order` | anti-entropy replication: the pull loop against a store that changes meanwhile, and two loops at once in every interleaving |
| `Json`, `QueueModel`, `Reconciliation`, `Preflight`, `CoreOutput`, `QueueTransitions`, `QueueDatabase`, `NullTask` | offline queues with logical clocks, device sequences and never-sent proof; the check of every pending row; the validator of the opaque core's output under Python's comparison; the atomic install of a sync response |
| `Bytes`, `CanonicalJson`, `FrameCodec` | canonical JSON with a parser that undoes it, base64url and authenticated frames |
| `SharedCoreBuffers` | a dispatch through WebAssembly memory: what is asked, what comes back, who owns which buffer |
| `SecretJournal` | secrets put back when a database transaction fails |
| `RevisionEvents` | the incremental event-stream parser against a specification by lines |
| `TrustedTime` | the trusted-time sample with its uncertainty, and the running timer's elapsed time |
| `Folds` | last-writer-wins replay of queued operations |

A class is a source class whose methods update fields; its methods are proved against functions or predicates, and
lemmas about those carry the main results. Calls that may fail, the keyring, the clock, the other peer and the
WebAssembly core are nondeterministic.

## What was found

The code differs from what its design promises in these places. Where a promised property fails, the failing run or
input and the exact condition under which it holds are proved.

- Recovery replays a journal it has not synced (`src/pomodorough/network.py:558-570`). A save whose journal was put in
  place but whose directory sync failed, then a recovery, then a power loss after the keyring write leaves the new secret
  beside the old identity file. A run never splits them if and only if every keyring write of a replay happens while the
  journal cannot be lost or every identity file that may be left names its response
  (`CredentialSafety.CredentialsAgreeOverEveryRun`).
- A marker that was removed but not synced can come back after the next save has put a new journal in place; likewise
  a journal under a new marker. `CredentialSafety.MarkersAgreeOverEveryRun` gives the exact condition on runs. Cleanup
  still never touches credentials of another identity.
- Three things left unsynced matter to that: a new journal, a journal taken back, and a removed marker. A call can leave
  one only when it takes new tokens or removes a marker and then reports a store error, or when it keeps the failure to
  itself: the end of a deletion gone stale (`src/pomodorough/network_account.py:552-567`) and a deletion request without
  an answer (`src/pomodorough/network_account.py:515-529`). `CredentialSafety.UncertainDeletionCanReturn` is the run in
  which the latter brings an erased account's marker back beside the next login. If every such call is followed by a
  power loss or by nothing, no sequence of calls ever splits credentials or parts a marker (`AccountCalls.PerformAll`).
  The silent failure of an expiring session, and every failure to write a marker, a tombstone or the identity file, do
  no harm.
- A malformed marker beside already cleared credentials makes every later deletion retry fail, though nothing is left
  to delete (`CredentialSafety.MalformedMarkerCanOutliveDeletion`); a retry succeeds in every other case
  (`AccountSession.AccountLifecycle.ResolvePendingDeletionCleanup`).
- Retained payloads are compared with `dict.get`, so a null member and a missing one are taken for the same. The check
  of the rows that follows in the same transaction (`src/pomodorough/storage.py:1687-1790`) refuses every difference
  this lets through but one: a command other than a retarget that was queued without a `taskId` may come back with a
  null one, or the other way round, and the row is rewritten (`NullTask.NullTaskIsInstalled`). A committed sync leaves
  every kept row the object it was, adjustable members aside, if and only if that does not happen
  (`QueueTransitions.SyncKeepsRowsExactlyUnlessNullTaskToggles`). A retarget cannot lose its `taskId`.
- The same comparison takes 1, 1.0 and true for equal; the check of the rows leaves no member where that matters.
- `generatedBreak: false`, written out, is refused: the member is then one too many.
- Encoding an empty byte string in base64url gives the empty text, which decoding refuses.
- A failed allocation always leaves the core instance unusable, because releasing a missing buffer of nonzero length
  counts as a failed release.
- A secret mutation that fails on an already changed key but takes effect stays in place after the rollback
  (`SecretJournal.UncertainSecondSaveStays`); a rollback brings back every secret if and only if no such call comes
  after the last answered one on its key with a value of its own
  (`SecretJournal.RollbackRestoresExactlyUnlessLeftBehind`).
- The text of the batch-size error names 256 references where the limit is 255.

## Model

| member | source | states |
|---|---|---|
| CredentialSafety.CredentialsAgreeOverEveryRun | src/pomodorough/network.py:534-649 | Main result, with its exact condition. A run of saves, replays, clears, deletions, failing calls and power losses keeps keyring secret and identity file of one token response, at every moment and whatever a power loss then leaves, if and only if each keyring write of a replay happens while its journal cannot be lost or every identity file that may be left already names its response. |
| CredentialSafety.CredentialsAgreeWhilePowerStaysOn | src/pomodorough/network.py:534-649 | The same with no condition at all for every run without a power loss, however processes die. |
| CredentialSafety.StepKeepsSound | src/pomodorough/network.py:534-649 | A file or keyring step that is no unsafe keyring write of a replay keeps the invariant on everything a power loss may leave. |
| CredentialSafety.StepIsSafeExactlyWhenReplayIs | src/pomodorough/network.py:544-556 | The same for one step: it survives every power loss if and only if it is not an unsafe keyring write. |
| CredentialSafety.SafeRunsStaySound | src/pomodorough/network.py:534-649 | The invariant holds at every moment of a run whose keyring writes are safe. |
| CredentialSafety.UnsyncedReplayCanSplitCredentials | src/pomodorough/network.py:558-570 | Counterexample: a legal run in which recovery replays a journal it has not synced; a power loss leaves the new secret beside the old identity. |
| CredentialSafety.ReplayStepKeepsRecovered | src/pomodorough/network.py:544-556 | No step of a replay changes what recovery will end in. |
| CredentialSafety.InterruptedReplaysAgree | src/pomodorough/network.py:544-570 | Main result. Replaying a journal any number of times, cut short anywhere, ends in the state of one uninterrupted replay. |
| CredentialSafety.ReplayUnfolds | src/pomodorough/network.py:544-556 | What one uninterrupted replay leaves in each file and in the keyring. |
| CredentialSafety.SignedOutUntilNextSave | src/pomodorough/network.py:302-312 | Main result. Once the tombstone's directory sync succeeded, nothing can be loaded until a save writes its own journal, across all power losses and even with the old secret in the keyring. |
| CredentialSafety.TombstoneSyncSignsOutForGood | src/pomodorough/network.py:958-974 | The sync after the tombstone write establishes that state. |
| CredentialSafety.ConfirmationSyncOwesDeletion | src/pomodorough/network.py:779-802 | A durable confirmation makes the deletion owed in every world a power loss may leave. |
| CredentialSafety.StepKeepsDeletionOwed | src/pomodorough/network.py:396-408 | No step forgets an owed deletion; a journal is written only when it is finished. |
| CredentialSafety.ConfirmedDeletionIsNeverForgotten | src/pomodorough/network_account.py:720-812 | Main result. In every later state the record is still confirmed, or tombstone, missing secret and cleared identity are all there; no save writes a journal in between. |
| CredentialSafety.StepKeepsMarkerSound | src/pomodorough/network_account.py:476-496 | A step keeps marker and identity together if and only if no other marker or journal is unsettled. |
| CredentialSafety.MarkerSoundAgrees | src/pomodorough/network_account.py:476-496 | The invariant gives agreement now and after any power loss. |
| CredentialSafety.MarkerStepIsSafeExactlyWhenSettled | src/pomodorough/network_account.py:1003-1030 | Exact condition under which a step keeps a pending marker and the identity record in agreement under every power loss. |
| CredentialSafety.MarkersAgreeOverEveryRun | src/pomodorough/network_account.py:476-496 | Main result, with its exact condition. A run keeps the identity record theirs, confirmed theirs or nobody's for every pending marker, at every moment and whatever a power loss then leaves, if and only if markers and journals are settled whenever the other is written. |
| CredentialSafety.MalformedMarkerCanOutliveDeletion | src/pomodorough/network_account.py:790-812 | Counterexample: a legal run reaches a malformed marker beside credentials that are already cleared. |
| CredentialSafety.ForgottenMarkerCanReturn | src/pomodorough/network_account.py:1016-1030 | Counterexample: a legal run in which a removed, unsynced marker comes back under a new journal. |
| CredentialSafety.UncertainDeletionCanReturn | src/pomodorough/network_account.py:515-529 | Counterexample: a deletion request without an answer erases everything and keeps the failed sync of the marker's removal to itself; after the next login's journal the marker comes back. |
| CredentialPlatform.Platform.Take | src/pomodorough/network_account.py:97-114 | Every step is recorded, so the present is the end of a legal run. |
| CredentialPlatform.Platform.Write | src/pomodorough/network.py:1003-1033 | Write, replace, sync: each failure leaves one of the states named. |
| CredentialPlatform.Platform.Remove | src/pomodorough/network.py:492-509 | Unlink and sync, likewise. |
| CredentialPlatform.Platform.SaveSecret | src/pomodorough/secure_store.py:100-106 | A plain rejection changed nothing, an uncertain one may have. |
| CredentialPlatform.Platform.DeleteSecret | src/pomodorough/network.py:958-974 | Deleting the secret may fail with or without effect. |
| CredentialPlatform.Platform.LosePower | src/pomodorough/network_account.py:97-114 | A power loss leaves one possible value of each entry and nothing unsynced. |
| CredentialPlatform.DisciplinedPlatformAgrees | src/pomodorough/network_account.py:97-114 | Whoever drives the platform, its run is disciplined if and only if credentials and markers agreed at every moment, whatever a power loss would have left. |
| CredentialPlatform.PowerMayFailAtAnyMoment | src/pomodorough/network_account.py:97-114 | Whatever a power loss in the middle of a call leaves of a disciplined run, the next process can begin a disciplined run from it. |
| TokenStorage.TokenStore.FinishCommit | src/pomodorough/network.py:534-542 | Finishing a commit never changes what recovery would end in. |
| TokenStorage.TokenStore.ReplayCredentialCommit | src/pomodorough/network.py:544-556 | A replay that returns has done exactly the whole replay. |
| TokenStorage.TokenStore.RecoverCredentialCommit | src/pomodorough/network.py:558-570 | Recovery succeeds with no journal left, or reports pending and keeps what it would end in. |
| TokenStorage.TokenStore.RestoreJournal | src/pomodorough/network.py:572-585 | The journal is back, or the store is untouched. |
| TokenStorage.TokenStore.AbortCredentialCommit | src/pomodorough/network.py:587-600 | An abort is reported pending exactly while the journal is there. |
| TokenStorage.TokenStore.Save | src/pomodorough/network.py:386-394 | Every outcome: the new response is what recovery yields exactly when the outcome is success or a fresh pending commit; a marker, a confirmed deletion or a changed identity lets nothing through; a success leaves nothing unsynced for the next call. |
| TokenStorage.TokenStore.AssertAccountDeletionUnblocked | src/pomodorough/network.py:396-408 | Passes only without a marker and without a confirmed record. |
| TokenStorage.TokenStore.AssertAccountDeletionRefreshCurrent | src/pomodorough/network.py:816-823 | During a deletion's refresh the identity on record must be the captured one. |
| TokenStorage.TokenStore.SaveLocked | src/pomodorough/network.py:602-649 | On every failure path, abort and journal restoration included, memory and store agree on which response won; a success leaves nothing unsynced. |
| TokenStorage.TokenStore.LoadStored | src/pomodorough/network.py:290-312 | What recovery yields whichever API it is bound to, and nothing while signed out. |
| TokenStorage.TokenStore.Load | src/pomodorough/network.py:284-288 | Load answers what recovery yields for this API, and nothing while signed out; however it ends, nothing unsynced is left that a power loss could turn to harm. |
| TokenStorage.TokenStore.DeletionCandidate | src/pomodorough/network.py:825-839 | Reads the keyring whatever the tombstone says. |
| TokenStorage.TokenStore.CredentialIdentity | src/pomodorough/network.py:841-845 | The identity on record, refused when the keyring holds another token. |
| TokenStorage.TokenStore.ConfirmedGeneration | src/pomodorough/network.py:765-777 | The generation of a confirmed record whose secret still matches. |
| TokenStorage.TokenStore.ConfirmAccountDeletion | src/pomodorough/network.py:779-802 | Confirmed means durably owed; another identity is left alone. |
| TokenStorage.TokenStore.ClearLocked | src/pomodorough/network.py:958-974 | Success is a finished, durable sign-out; any later failure is still signed out, and none leaves harm to a power loss. |
| TokenStorage.TokenStore.EraseCredentials | src/pomodorough/network.py:958-974 | Behind a durable tombstone keyring and identity file are erased, or it is still signed out for good. |
| TokenStorage.TokenStore.Clear | src/pomodorough/network.py:699-707 | The two failure outcomes tell whether the tombstone is there; however it ends, nothing is left to a power loss. |
| TokenStorage.TokenStore.ClearAccountDeletionCredentials | src/pomodorough/network.py:729-744 | Cleanup never removes another identity's credentials, and says whether anything of this one is left. |
| TokenStorage.TokenStore.ClearIfSignedOut | src/pomodorough/network.py:949-952 | Finishes a sign-out only behind a tombstone, in discipline, and leaves nothing to a power loss however it ends. |
| AccountSession.AuthenticatedSession.AcceptTokens | src/pomodorough/network_session.py:93-106 | Main result. On every path, memory holds the new tokens exactly when completing recovery on the visible store would yield them; otherwise memory and recovery are as before. |
| AccountSession.AuthenticatedSession.BeginRefresh | src/pomodorough/network_session.py:180-194 | Hands out the refresh token recovery yields, for the current generation only; asks for a sign-in only when there is none. |
| AccountSession.AuthenticatedSession.FinishRefresh | src/pomodorough/network_session.py:180-194 | Tokens are stored only while the captured generation is current. |
| AccountSession.AuthenticatedSession.RefreshFailed | src/pomodorough/network_session.py:203-222 | A 401 clears the store only for the current generation. |
| AccountSession.AuthenticatedSession.DropAccess | src/pomodorough/network_session.py:224-245 | The access token is dropped only for the current generation. |
| AccountSession.AccountLifecycle.ReadMarker | src/pomodorough/network_account.py:878-897 | A malformed marker is an error, not a missing one. |
| AccountSession.AccountLifecycle.ClearMarker | src/pomodorough/network_account.py:1016-1026 | Removes the marker without touching credentials. |
| AccountSession.AccountLifecycle.PutMarker | src/pomodorough/network_account.py:976-1001 | A success is a durable marker. |
| AccountSession.AccountLifecycle.BeginDeletion | src/pomodorough/network_account.py:392-415 | A deletion starts only for the identity on record and in memory, under a new generation, and with nothing failing or owed it does start. |
| AccountSession.AccountLifecycle.MarkerMayExist | src/pomodorough/network_account.py:863-867 | A marker that cannot be read counts as one that is there. |
| AccountSession.AccountLifecycle.PrepareDeletionCleanup | src/pomodorough/network_account.py:476-496 | Success means a marker for exactly the identity on record; a failure after which a marker may be there is remembered. |
| AccountSession.AccountLifecycle.BeginDeletionRefresh | src/pomodorough/network_account.py:569-599 | A deletion's worker refreshes only with the token it captured, while the deletion and the identity are current. |
| AccountSession.AccountLifecycle.FinishDeletionRefresh | src/pomodorough/network_account.py:569-599 | Its new tokens are stored only while that deletion is still current and the record still names the captured identity. |
| AccountSession.AccountLifecycle.EnsureMarker | src/pomodorough/network_account.py:720-746 | The marker is there afterwards; credentials are untouched. |
| AccountSession.AccountLifecycle.WriteMarker | src/pomodorough/network_account.py:966-974 | Never replaces somebody else's marker. |
| AccountSession.AccountLifecycle.ResolveDeletionCleanup | src/pomodorough/network_account.py:720-746 | Resolved means finished for this identity, with confirmation and marker standing together before anything was cleared; with nothing failing it resolves, for credentials already gone exactly when no other marker is there; another identity's credentials are unchanged. |
| AccountSession.AccountLifecycle.ClearConfirmed | src/pomodorough/network_account.py:720-746 | After the confirmation: the marker is rearmed, then the credentials go, then the marker. |
| AccountSession.AccountLifecycle.SettleAbsentCredentials | src/pomodorough/network_account.py:748-757 | With nobody on record it resolves if and only if there is no marker or this cleanup's own, and removes no other. |
| AccountSession.AccountLifecycle.ResolvePendingDeletionCleanup | src/pomodorough/network_account.py:769-788 | Main result. With nothing failing, one retry finishes an owed deletion from every state, and succeeds exactly in the states named; it answers whose cleanup was owed; credentials change only for the identity the marker or record names. |
| AccountSession.AccountLifecycle.PendingOrConfirmedCleanup | src/pomodorough/network_account.py:790-812 | A confirmed record outranks and rewrites a lost or malformed marker. |
| AccountSession.AccountLifecycle.RetireLegacyMarker | src/pomodorough/network_account.py:814-820 | A legacy marker goes only when nobody is on record. |
| AccountSession.AccountLifecycle.RetryDeletionCleanup | src/pomodorough/network_account.py:704-718 | The deleted identity's session is signed out behind a fence, any other is as it was; with nothing failing it succeeds exactly when the owed cleanup can be finished. |
| AccountSession.AccountLifecycle.FinishRemoteDeletion | src/pomodorough/network_account.py:531-550 | Done means the current deletion is finished, and until it is completed its generation is remembered; a stale one touches no credentials and is settled. |
| AccountSession.AccountLifecycle.RefuseDeletion | src/pomodorough/network_account.py:498-513 | A refused request loses its marker and nothing else; a failure to remove it is reported and remembered. |
| AccountSession.AccountLifecycle.SecureUncertainDeletion | src/pomodorough/network_account.py:515-529 | A request without an answer counts as a deletion; its generation is remembered, what fails locally is not told, others' credentials are spared and a stale one is settled. |
| AccountSession.AccountLifecycle.ExpireSession | src/pomodorough/network_account.py:1063-1076 | Memory is cleared in any case, the store if it lets itself be; its silent failure leaves nothing to a power loss. |
| AccountSession.AccountLifecycle.RetrySignOutCleanup | src/pomodorough/network_account.py:680-698 | Owed cleanup comes first; what a tombstone left behind is erased only for a signed-out session. |
| AccountSession.AccountLifecycle.SettleStaleCleanup | src/pomodorough/network_account.py:552-567 | A stale generation loses its own marker and nothing else, and is remembered only if that failed; one whose generation still stands is finished. |
| AccountSession.AccountLifecycle.RemoveMarker | src/pomodorough/network_account.py:1003-1014 | Removes exactly the given marker. |
| AccountSession.AccountLifecycle.CompleteDeletion | src/pomodorough/network_account.py:622-632 | Completes exactly the current deletion, behind a new fence. |
| AccountSession.AccountLifecycle.FailDeletion | src/pomodorough/network_account.py:634-647 | Signs out exactly when cleanup is still owed, by memory, marker or a marker that cannot be read, and then forgets the generation. |
| AccountSession.AccountLifecycle.LogoutCredentials | src/pomodorough/network_account.py:1052-1061 | What to revoke is the session's tokens or else the stored refresh token; looking it up changes no credentials and leaves nothing to a power loss. |
| AccountSession.AccountLifecycle.SignOut | src/pomodorough/network_account.py:649-667 | Memory is signed out exactly when the store is, and the tokens to revoke are handed out; with nothing failing a sign-out succeeds if and only if no owed cleanup stands in its way. |
| AccountCalls.PerformSession | src/pomodorough/network_session.py:93-245 | What each call of a session does to store and memory, whatever its outcome. |
| AccountCalls.PerformDeletion | src/pomodorough/network_account.py:392-647 | What each call of an account deletion does to store and memory, the refused and the unanswered request included. |
| AccountCalls.Perform | src/pomodorough/network_account.py:392-1065 | A call begun with nothing left to a power loss is disciplined, and leaves nothing unless it is one of those that take new tokens or remove a marker and reports a store error, a deletion request without an answer, or the end of a stale deletion. |
| AccountCalls.PerformAll | src/pomodorough/network_account.py:392-1065 | Main result. Any sequence of calls and power losses is performed to its end, each call doing what is stated of it. If whatever may have left something unsynced is followed by a power loss or by nothing, then at no moment, inside a call or between two, could a power loss leave secret and identity file of two responses or a marker beside another identity. |
| SessionFence.WorkersActOnlyForTheirAccount | src/pomodorough/network_session.py:180-245 | Main result. Over every interleaving: a worker that captured a generation stores tokens, a deletion's own refresh included, clears or drops only if the account stayed at that generation throughout, with no sign-out, deletion or shutdown in between. |
| SessionFence.FencedWorkersChangeNothing | src/pomodorough/network_account.py:622-667 | After a fence every earlier capture is refused and changes nothing. |
| SessionFence.GenerationNeverFalls | src/pomodorough/network_account.py:622-667 | The generation never falls over any run. |
| SessionFence.StepRaisesGeneration | src/pomodorough/network.py:1894-1943 | The generation rises by one exactly when a fencing section runs or owed cleanup ends the session, and never otherwise. |
| SessionFence.TokensHaveTheirWriters | src/pomodorough/network_account.py:622-667 | A token in memory is exactly the one a current exchange stored, gone when the session ends, and else what it was. |
| SessionFence.FlagsHaveTheirWriters | src/pomodorough/network_account.py:622-667 | Exactly which sections set and clear the shutdown, sign-out and authentication flags. |
| SessionFence.WhoDeletes | src/pomodorough/network_account.py:392-647 | A deletion is in progress exactly from its beginning until it ends, fails or is fenced. |
| SessionFence.WhoWorks | src/pomodorough/network.py:1512-1556 | Which workers run, and when the service is busy with them. |
| SessionFence.HeldTokensWereStored | src/pomodorough/network_session.py:93-245 | Main result. Over every run from the start, a session holds only tokens that one exchange stored while it was current and since which the session has not ended. |
| SessionFence.ShutDownIsFinal | src/pomodorough/network.py:1894-1906 | Once shutting down, no exchange stores a token and no deletion begins, whatever follows. |
| SessionFence.SignOutHoldsUntilDone | src/pomodorough/network.py:1918-1943 | From preparing a sign-out to its end no worker starts and no exchange changes anything. |
| SessionFence.StepKeepsBusy | src/pomodorough/network.py:1512-1556 | Each step keeps the busy flag covering current workers. |
| SessionFence.BusyWhileWorkersRun | src/pomodorough/network.py:1512-1556 | Over every run, the service is busy while a worker of the current generation runs. |
| RecordStorage.MergedKeepsEverything | src/pomodorough/storage_iroh_records.py:165-185 | An insert keeps every stored record and takes each new one once. |
| RecordStorage.MergedStaysOwned | src/pomodorough/storage_iroh_records.py:141-185 | It keeps one owner per device sequence. |
| RecordStorage.BeforeMeans | src/pomodorough/storage_iroh_records.py:187-226 | The order is by domain and then identifier, each by its first difference. |
| RecordStorage.RecordStore.InsertRemote | src/pomodorough/storage_iroh_records.py:18-80 | No stored record ever changes; conflict exactly on a differing payload; an acceptable batch is inserted. |
| RecordStorage.RecordStore.CheckDistinct | src/pomodorough/storage_iroh_records.py:63-80 | Duplicates in a batch are found exactly. |
| RecordStorage.RecordStore.FindConflict | src/pomodorough/storage_iroh_records.py:82-105 | A differing payload is found exactly when there is one. |
| RecordStorage.RecordStore.CheckSequences | src/pomodorough/storage_iroh_records.py:141-163 | Accepts exactly the batches that leave each device sequence to one operation. |
| RecordStorage.RecordStore.StoredOwners | src/pomodorough/storage_iroh_records.py:141-163 | The owners of all stored sequences. |
| RecordStorage.RecordStore.InsertPrepared | src/pomodorough/storage_iroh_records.py:165-185 | Says whether anything new came in. |
| RecordStorage.RecordStore.Inventory | src/pomodorough/storage_iroh_records.py:187-226 | A page is exactly the references up to its cursor, in order; the cursor is its last, given exactly when the page is full and more is left; a limit out of range is refused. |
| RecordStorage.RecordStore.Page | src/pomodorough/storage_iroh_records.py:187-226 | The same with each record's digest. |
| RecordStorage.RecordStore.MissingReferences | src/pomodorough/storage_iroh_records.py:254-310 | What is missing here, in order; a differing digest latches the conflict; too long a page is refused. |
| RecordStorage.RecordStore.Operations | src/pomodorough/storage_iroh_records.py:228-252 | All the records asked for, or none. |
| Replication.Exchange.RemotePulls | src/pomodorough/iroh_network.py:634-682 | What a peer may do to its store while it is pulled from. |
| Replication.Exchange.FetchRecords | src/pomodorough/iroh_network.py:803-833 | An honest peer's batch passes every check and is stored. |
| Replication.Exchange.StoreBatch | src/pomodorough/iroh_network.py:803-833 | The insert of such a batch cannot conflict. |
| Replication.Exchange.FetchMissing | src/pomodorough/iroh_network.py:753-801 | All that is missing of a page is fetched in batches of at most 255. |
| Replication.Exchange.PullPage | src/pomodorough/iroh_network.py:753-801 | One page passes the client's checks and leaves nothing missing up to the next cursor. |
| Replication.Exchange.PullPass | src/pomodorough/iroh_network.py:753-801 | Main result. A pass skips nothing the remote held when it began, whatever the remote inserts meanwhile. |
| Replication.Exchange.PullUntilConverged | src/pomodorough/iroh_network.py:753-801 | Main result. The loop terminates with the local store equal to the union of both, nothing stored changed. |
| Replication.ValidateInventoryResult | src/pomodorough/iroh_protocol.py:691-706 | Accepts exactly pages within the limit whose references strictly ascend. |
| PeerInterleaving.StepKeepsGood | src/pomodorough/iroh_network.py:995-1002 | Every atomic section of either peer keeps: nothing the other had when a pass began is skipped. |
| PeerInterleaving.ConvergedPeersHoldTheUnion | src/pomodorough/iroh_network.py:995-1002 | Main result. In every interleaving of both loops, a peer whose loop ended holds the union of the initial stores. |
| PeerInterleaving.MoveLowersRank | src/pomodorough/iroh_network.py:753-801 | Every section brings its own loop closer to its end. |
| PeerInterleaving.BothLoopsEnd | src/pomodorough/iroh_network.py:995-1002 | Main result. Every interleaving is no longer than the work it starts with: both loops terminate. |
| PeerInterleaving.UnfinishedPeersCanMove | src/pomodorough/iroh_network.py:753-801 | An unfinished loop always has a section to run. |
| QueueModel.SamePayloadKeepsClocks | src/pomodorough/storage_canonical_acknowledgements.py:94-124 | A retained operation keeps identity, clock and sequence. |
| QueueModel.LaterIsStrict | src/pomodorough/storage.py:1430-1434 | Clocks are compared by wall time and then counter, a strict total order. |
| QueueModel.WhatQueueingChanges | src/pomodorough/storage.py:3125-3159 | On the rows themselves: the new row is there with its proof, a duration operation replaces its phase's, every other row, proof and parent stays. |
| Json.EqualIsReflexive | src/pomodorough/storage_canonical_acknowledgements.py:94-124 | Python's comparison, under which 1, 1.0 and true are equal, holds of every value and itself. |
| Json.EqualOfScalars | src/pomodorough/storage_canonical_acknowledgements.py:94-124 | Which scalars are equal: numbers and truth values of the same value, texts of the same characters, null and null. |
| Json.EqualLooksInside | src/pomodorough/storage_canonical_acknowledgements.py:94-124 | Lists are equal element by element, objects member by member with the same keys. |
| Json.EqualIsTransitive | src/pomodorough/storage_canonical_acknowledgements.py:94-124 | Equality carries on, also from what was stored to what was sent and came back. |
| QueueModel.PersistedStaysWellFormed | src/pomodorough/storage.py:3125-3159 | Queueing keeps rows keyed, proof within pending, one duration row per phase, parents present. |
| QueueModel.PersistedStaysCovered | src/pomodorough/storage.py:2342-2378 | Queueing keeps the persisted clock at or above every row. |
| QueueModel.PersistedStaysSequenced | src/pomodorough/storage.py:2342-2378 | Queueing keeps device sequences distinct and none ahead of the persisted one. |
| QueueModel.PersistedStaysIssued | src/pomodorough/storage.py:2342-2378 | No sequence is ever issued twice. |
| QueueModel.PersistedStaysRecent | src/pomodorough/storage.py:1430-1434 | Queueing keeps recent rows later than the head and provably unsent. |
| QueueModel.PersistedStaysConsistent | src/pomodorough/storage.py:2342-2378 | All table invariants together. |
| QueueModel.ParentStaysConsistent | src/pomodorough/storage.py:2342-2378 | Recording a parent keeps them. |
| Reconciliation.CheckDistinct | src/pomodorough/storage_canonical_acknowledgements.py:38-77 | Duplicates are found exactly. |
| Reconciliation.CheckAcknowledgement | src/pomodorough/storage_canonical_acknowledgements.py:38-77 | Well formed is exactly an object with an identifier, one of the three outcomes and, if any, a textual reason. |
| Reconciliation.ValidateAcknowledgements | src/pomodorough/storage_canonical_acknowledgements.py:38-77 | Accepts if and only if exactly the sent operations are acknowledged, each once and well formed. |
| Reconciliation.NormalizedOperation | src/pomodorough/storage_canonical_reconciliation.py:534-568 | Accepts if and only if the value is this device's object with every required member and no foreign one (a deletion may lack its title); each member survives as the core gave it. |
| Reconciliation.ValidateQueue | src/pomodorough/storage_canonical_acknowledgements.py:94-124 | Accepts a queue if and only if it is the local rows minus acknowledged minus dropped, each with an agreeing payload. |
| Reconciliation.PayloadAgrees | src/pomodorough/storage_canonical_acknowledgements.py:94-124 | Comparing the members that occur decides agreement on all of them. |
| Reconciliation.ValidateIdList | src/pomodorough/storage_canonical_reconciliation.py:327-348 | Accepts exactly duplicate-free lists of non-empty strings. |
| Reconciliation.ParsedDependency | src/pomodorough/storage_canonical_reconciliation.py:351-383 | Accepts if and only if the entry joins two different retained commands and has exactly the members of its kind. |
| Reconciliation.ValidateDependencies | src/pomodorough/storage_canonical_reconciliation.py:351-383 | Accepts if and only if every entry parses and no child has two parents. |
| Reconciliation.ValidateProjected | src/pomodorough/storage_canonical_reconciliation.py:615-653 | Accepts if and only if a domain's optimistic queue is empty, or as long as the retained one and drawn from it. |
| Reconciliation.DrawnFrom | src/pomodorough/storage_canonical_reconciliation.py:615-653 | Lookup by identifier decides membership. |
| Reconciliation.LookupFindsMembers | src/pomodorough/storage_canonical_reconciliation.py:615-653 | Why it does, when identifiers are distinct. |
| CoreOutput.ValidateIdSets | src/pomodorough/storage_canonical_reconciliation.py:327-348 | Dropped operations are local and unacknowledged, promoted ones also not dropped. |
| CoreOutput.ValidateDomain | src/pomodorough/storage_canonical_reconciliation.py:655-672 | One domain's queue and projection agree. |
| CoreOutput.ValidateDomains | src/pomodorough/storage_canonical_reconciliation.py:570-613 | All five do. |
| CoreOutput.ValidateBase | src/pomodorough/storage_canonical_reconciliation.py:674-700 | The core's base is the server's canonical state. |
| CoreOutput.WhereQueuesStand | src/pomodorough/storage_canonical_reconciliation.py:299-324 | Under which member each domain's queue comes back. |
| CoreOutput.WhereProjectedQueuesStand | src/pomodorough/storage_canonical_reconciliation.py:615-653 | Under which member each domain's optimistic queue comes back. |
| CoreOutput.ValidateScalars | src/pomodorough/storage.py:453-458 | Revision and clock are safe integers, the clock at or up to five minutes beyond the server's time. |
| CoreOutput.ValidateProjection | src/pomodorough/storage.py:2940-2989 | Accepts exactly projections of the shape the client can show. |
| CoreOutput.CompareProjection | src/pomodorough/storage_canonical_installation.py:364-403 | The replay is refused unless it equals the announced projection member by member, as Python compares. |
| CoreOutput.AgreeingQueueIsAccepted | src/pomodorough/storage_canonical_acknowledgements.py:80-124 | What agrees is exactly the retained rows, each comparing equal to its original. |
| CoreOutput.RetainedQueuesAreAccepted | src/pomodorough/storage_canonical_reconciliation.py:570-613 | The same for every domain. |
| CoreOutput.RestIsLeft | src/pomodorough/storage_canonical_acknowledgements.py:80-91 | Exactly the rows neither acknowledged nor, of commands, listed as dropped are left. |
| CoreOutput.ParentsAreRetained | src/pomodorough/storage_canonical_reconciliation.py:774-783 | Every recorded parent is itself retained. |
| CoreOutput.SameProjectionReplays | src/pomodorough/storage_canonical_installation.py:364-403 | A replay that gives the announced projection is accepted. |
| CoreOutput.ValidateOutput | src/pomodorough/storage_canonical_reconciliation.py:570-613 | Main result. For any JSON value the core returns, compared as Python compares: accepted if and only if it agrees in every respect checked, the shape of its projection included, and then each queue is old minus acknowledged minus dropped with payloads that compare equal. |
| Preflight.CheckQueue | src/pomodorough/storage.py:1687-1813 | Passes if and only if every row does. |
| Preflight.CheckRow | src/pomodorough/storage.py:1687-1813 | One row of any domain, checked by its own validator. |
| Preflight.CheckCommand | src/pomodorough/storage.py:1687-1727 | A command passes exactly with its identity, type, clock, sequence, phase, elapsed time and task as required. |
| Preflight.CheckRetarget | src/pomodorough/storage.py:1729-1748 | A retarget names a task and nothing of a timer. |
| Preflight.CheckTaskOperation | src/pomodorough/storage.py:1750-1770 | An upsert carries the title its task is named by, a deletion none. |
| Preflight.CheckDurationOperation | src/pomodorough/storage.py:1772-1786 | A known phase and whole minutes within bounds. |
| Preflight.CheckAutoStartOperation | src/pomodorough/storage.py:1788-1798 | A truth value of this device. |
| Preflight.CheckSelectedTaskOperation | src/pomodorough/storage.py:1800-1813 | A task or none, of this device. |
| Preflight.CheckQueues | src/pomodorough/storage.py:1815-1862 | For all five queues. |
| Preflight.MembersSettle | src/pomodorough/storage.py:1687-1813 | Of two rows that pass, members that compare equal are identical, and none but a task may be null. |
| Preflight.AlikeRowsAreTheSame | src/pomodorough/storage.py:1687-1813 | Main result. Of two rows that pass and compare equal, the objects are identical, adjustable members aside, if and only if no command other than a retarget gains or loses a null task. |
| Preflight.StoredCommandIsAcceptable | src/pomodorough/storage_canonical_reconciliation.py:534-568 | A command that passes, sent to the core with its device, comes back as it was. |
| Preflight.NullTaskMayComeAndGo | src/pomodorough/storage.py:1687-1727 | For every such command both forms pass, are accepted from the core, compare equal and are different objects. |
| Preflight.RetargetKeepsItsTask | src/pomodorough/storage.py:1729-1748 | A retarget without its task never passes. |
| NullTask.NullTaskIsInstalled | src/pomodorough/storage_canonical_reconciliation.py:731-772 | Counterexample, for every command but a retarget that was queued without a task: consistent tables, an answer and a response with which the sync may commit, and the stored row then has a null task. |
| NullTask.PauseWithoutTask | src/pomodorough/storage.py:1687-1727 | A pause is such a command. |
| QueueTransitions.PayloadNamesTheSelection | src/pomodorough/storage_sync.py:206-291 | A claim's answer must acknowledge exactly what was selected. |
| QueueTransitions.InstallStaysWellFormed | src/pomodorough/storage_canonical_installation.py:257-287 | An install keeps rows keyed, proof within pending, parents retained, one duration row per phase. |
| QueueTransitions.InstallStaysSequenced | src/pomodorough/storage_canonical_installation.py:257-287 | It keeps device sequences distinct and covered. |
| QueueTransitions.InstallStaysCovered | src/pomodorough/storage_canonical_installation.py:326-362 | It keeps the persisted clock at or above every pending clock and the new head. |
| QueueTransitions.InstallStaysConsistent | src/pomodorough/storage_canonical_installation.py:257-287 | All table invariants together. |
| QueueTransitions.KeptIsInstalled | src/pomodorough/storage_canonical_reconciliation.py:731-772 | Rewriting only the rows that differ, between two checks of all rows, keeps identifiers, clocks, sequences and every member but the adjustable ones and a null task. |
| QueueTransitions.CommitConsumes | src/pomodorough/storage_canonical_acknowledgements.py:80-91 | Stated on request, response and answer: the server told of exactly what was sent, and of each queue exactly that is gone, and of commands what the core dropped. |
| QueueTransitions.SyncKeepsRowsExactlyUnlessNullTaskToggles | src/pomodorough/storage_canonical_reconciliation.py:702-714 | Exact condition: a committed sync leaves every kept row the object it was, adjustable members aside, if and only if no command other than a retarget gains or loses a null task. |
| QueueTransitions.InstallIsSound | src/pomodorough/storage_canonical_installation.py:257-287 | The rewritten rows under the merged clock are consistent, pass again, and are all a commit promises. |
| QueueTransitions.MergedStaysBounded | src/pomodorough/storage_canonical_installation.py:326-362 | The merged clock passes the next preflight. |
| QueueTransitions.RetiringStaysConsistent | src/pomodorough/storage.py:1436-1443 | Losing proof keeps the invariants once what was sent is known. |
| QueueTransitions.BatchGrows | src/pomodorough/storage.py:2154-2180 | One command more has the next sequence and clock, its parent and its proof, and leaves all else as it was. |
| QueueTransitions.LatestDecidesTrust | src/pomodorough/storage_canonical_installation.py:326-362 | Comparing the greatest retained clock decides whether any is too far ahead. |
| QueueDatabase.QueueDatabase.constructor | src/pomodorough/storage.py:718-732 | A new database has empty queues, no proof, no parents, no claim, sequence and clock at zero. |
| QueueDatabase.QueueDatabase.Preflight | src/pomodorough/storage.py:1815-1862 | Passes if and only if metadata are within bounds and every row passes. |
| QueueDatabase.QueueDatabase.QueueNext | src/pomodorough/storage.py:2154-2180 | The next command of a batch. |
| QueueTransitions.StampedKeepsMembers | src/pomodorough/storage.py:2154-2180 | Everything but identifier, clock and sequence is stored as it was given. |
| QueueDatabase.QueueDatabase.TickBatch | src/pomodorough/storage_generation.py:50-70 | A batch of clocks, the counter going up and from zero when time has moved on; refused exactly when it would pass the largest safe integer. |
| QueueTransitions.ClocksAscend | src/pomodorough/storage_generation.py:50-70 | Each clock of a batch is later than those before. |
| QueueDatabase.QueueDatabase.Reserve | src/pomodorough/storage_generation.py:23-48 | Succeeds if and only if headroom, skew and counters allow; sequences continue the persisted one, clocks the persisted clock. |
| QueueDatabase.QueueDatabase.Persist | src/pomodorough/storage.py:2342-2378 | Row, proof, clock and sequence change together and keep every invariant. |
| QueueDatabase.QueueDatabase.QueueOperation | src/pomodorough/storage.py:2546-2572 | Queues one operation with the next clock and its proof if and only if it was accepted, its identifier is free and a clock is to be had; otherwise changes nothing. |
| QueueDatabase.QueueDatabase.QueueCommands | src/pomodorough/storage.py:2154-2180 | Queues all commands, each as it was given with its own sequence, clock, parent and proof and nothing else changed, if and only if they were accepted, their identifiers are free and sequences and clocks are to be had; otherwise changes nothing. |
| QueueDatabase.QueueDatabase.QueueCommand | src/pomodorough/storage.py:2342-2378 | One command, its proof, its parent and its sequence recorded as issued; nothing else changes. |
| QueueDatabase.QueueDatabase.RetireProof | src/pomodorough/storage.py:1436-1443 | What is sent loses its proof, nothing else does. |
| QueueDatabase.QueueDatabase.ClaimSync | src/pomodorough/storage_sync.py:261-291 | A saved claim is resent as it is; a new one is made if and only if every row passes and the selection is pending; it carries the selected rows and retires exactly their proof. |
| QueueDatabase.QueueDatabase.RetireSelection | src/pomodorough/storage.py:1436-1443 | For every domain. |
| QueueDatabase.QueueDatabase.SafeDomainQueue | src/pomodorough/storage.py:2837-2849 | Main result. All or nothing, and all of a domain whose operations were queued since the last install and never sent. |
| QueueDatabase.QueueDatabase.ValidateResponse | src/pomodorough/storage_canonical_acknowledgements.py:136-182 | All five acknowledgement lists are exact. |
| QueueDatabase.QueueDatabase.PersistQueue | src/pomodorough/storage_canonical_reconciliation.py:731-772 | Deleting and rewriting row by row ends in the retained rows; one that compares equal keeps its bytes. |
| QueueDatabase.QueueDatabase.PersistQueues | src/pomodorough/storage_canonical_reconciliation.py:702-714 | For every domain, touching nothing else. |
| QueueDatabase.QueueDatabase.DropConsumedProof | src/pomodorough/storage_canonical_reconciliation.py:716-729 | Proof of the removed rows, and of no others, is dropped. |
| QueueDatabase.QueueDatabase.PersistReconciliation | src/pomodorough/storage_canonical_reconciliation.py:702-714 | Queues, parents and proof after reconciliation. |
| QueueDatabase.QueueDatabase.LatestIn | src/pomodorough/storage_canonical_installation.py:326-362 | The greatest clock of a queue. |
| QueueDatabase.QueueDatabase.LatestRetained | src/pomodorough/storage_canonical_installation.py:326-362 | The greatest retained clock. |
| QueueDatabase.QueueDatabase.MergedInstallClock | src/pomodorough/storage_canonical_installation.py:326-362 | Refuses if and only if a retained clock is beyond the trusted time; otherwise covers server, retained and trusted local clocks and is one of them. |
| QueueDatabase.QueueDatabase.ValidateSync | src/pomodorough/storage_canonical_installation.py:490-515 | Rows, acknowledgements, revision, server clock and time, and core output are all as demanded, and only then. |
| QueueDatabase.QueueDatabase.Install | src/pomodorough/storage_canonical_installation.py:257-287 | Commits if and only if the rewritten rows pass and are trusted and the replayed projection compares equal to the announced one; otherwise every table is restored. |
| QueueDatabase.QueueDatabase.Reconcile | src/pomodorough/storage_canonical_installation.py:490-515 | Validation, rewriting and install as one. |
| QueueDatabase.QueueDatabase.ApplySync | src/pomodorough/storage_canonical_installation.py:453-515 | Main result. Commits if and only if the claim compares equal, rows pass before and after, the replayed projection compares equal to the announced one, and everything is installable; then exactly the operations the request carried, each of them acknowledged, and the dropped commands are gone, payloads kept but for the stated exception, proof within pending, parents retained, revision not lower, clock covering, and the rows pass again; otherwise nothing changes. |
| Bytes.DecodeInverts | src/pomodorough/iroh_protocol.py:269-273 | UTF-8 text is recovered from its bytes. |
| Bytes.EncodingSpells | src/pomodorough/iroh_protocol.py:269-273 | Each code point's bytes have the ranges and carry the bits section 3 of RFC 3629 gives them. |
| Bytes.EncodesAllButSurrogates | src/pomodorough/iroh_protocol.py:269-273 | A text has bytes if and only if it holds no lone surrogate. |
| CanonicalJson.WordsOfJson | src/pomodorough/iroh_protocol.py:246-266 | The words and the punctuation, as characters. |
| CanonicalJson.EscapesOfJson | src/pomodorough/iroh_protocol.py:246-266 | Quotes, backslashes and the five short controls are written in two characters, other controls in six, all else as it is. |
| CanonicalJson.DigitsOfJson | src/pomodorough/iroh_protocol.py:246-266 | The ten digits. |
| CanonicalJson.NoLeadingZeros | src/pomodorough/iroh_protocol.py:246-266 | No number but zero begins with a zero. |
| CanonicalJson.SignOfNumber | src/pomodorough/iroh_protocol.py:246-266 | A minus sign exactly before what is below zero. |
| CanonicalJson.DigitValueInverts | src/pomodorough/iroh_protocol.py:246-266 | Decimal digits give the number back. |
| CanonicalJson.BodyInverts | src/pomodorough/iroh_protocol.py:246-266 | An escaped string gives the text back and ends where it ends. |
| CanonicalJson.BeforeIsStrict | src/pomodorough/iroh_protocol.py:246-266 | The key order by UTF-16 code units is a strict total order. |
| CanonicalJson.BeforeMeans | src/pomodorough/iroh_protocol.py:246-266 | Keys are ordered by their first differing UTF-16 code unit. |
| CanonicalJson.UnitsOfParts | src/pomodorough/iroh_protocol.py:246-266 | A code point is one unit, or two surrogates that give it back. |
| CanonicalJson.SortedKeys | src/pomodorough/iroh_protocol.py:246-266 | Every key once, in strictly ascending order. |
| CanonicalJson.PrintsExactlyThePortable | src/pomodorough/iroh_protocol.py:246-266 | Refused exactly: unsafe integers and unsupported values, at any depth. |
| CanonicalJson.NumberInverts | src/pomodorough/iroh_protocol.py:246-266 | A printed integer parses to itself. |
| CanonicalJson.ItemsInvert | src/pomodorough/iroh_protocol.py:246-266 | A printed list parses to its items. |
| CanonicalJson.MembersInvert | src/pomodorough/iroh_protocol.py:246-266 | Printed members parse to the object, whatever the map's own order. |
| CanonicalJson.ParseInverts | src/pomodorough/iroh_protocol.py:246-266 | Main result. The parser undoes the printer for every value and every continuation. |
| CanonicalJson.CanonicalIsInvertible | src/pomodorough/iroh_protocol.py:269-273 | The bytes of a record decode and parse to it. |
| CanonicalJson.CanonicalIsInjective | src/pomodorough/iroh_protocol.py:269-273 | Main result. Equal bytes mean equal values. |
| FrameCodec.FromSextetsInverts | src/pomodorough/iroh_protocol.py:52-53 | Regrouping bits loses nothing. |
| FrameCodec.Base64RoundTrip | src/pomodorough/iroh_protocol.py:52-68 | Decoding undoes encoding for every byte string but the empty one, which is refused. |
| FrameCodec.Base64IsCanonical | src/pomodorough/iroh_protocol.py:56-68 | Main result. A text is accepted if and only if it is the encoding of the non-empty bytes it yields. |
| FrameCodec.LeftOverBitsMustBeClear | src/pomodorough/iroh_protocol.py:56-68 | Exactly which two-symbol texts the re-encoding check refuses. |
| FrameCodec.BigEndianInverts | src/pomodorough/iroh_protocol.py:226-243 | The length field is read back. |
| FrameCodec.FromBigEndianInverts | src/pomodorough/iroh_protocol.py:233-243 | And is determined by the length. |
| FrameCodec.FramesAreExactlyTheEncodings | src/pomodorough/iroh_protocol.py:226-243 | Main result. For every secret and code function, a frame decodes to a body if and only if it is that body's frame. |
| SharedCoreBuffers.SignedI32 | src/pomodorough/shared_core.py:972-973 | A pointer survives the signed call convention. |
| SharedCoreBuffers.PackingInverts | src/pomodorough/shared_core.py:142-158 | A packed result gives pointer and length back, negative i64 included. |
| SharedCoreBuffers.SharedCore.AllocExport | src/pomodorough/shared_core.py:310-330 | What an allocation may answer; a sound one grants memory apart from everything still held. |
| SharedCoreBuffers.SharedCore.FreeExport | src/pomodorough/shared_core.py:332-343 | A buffer is freed exactly when the module says so, and a refusal is remembered as a fault. |
| SharedCoreBuffers.SharedCore.DispatchExport | src/pomodorough/shared_core.py:118-140 | What a dispatch reads, answers and hands over; a sound one leaves the reply to what it read. |
| SharedCoreBuffers.SharedCore.Release | src/pomodorough/shared_core.py:332-343 | Inconsistent pointer and length always fail. |
| SharedCoreBuffers.SharedCore.Allocate | src/pomodorough/shared_core.py:310-330 | A pointer is returned only for a buffer that is owned and holds the value, with everything else held undisturbed; a failure is the module's or the host's. |
| SharedCoreBuffers.SharedCore.DispatchJson | src/pomodorough/shared_core.py:243-266 | Main result. A sound module is asked exactly this operation with this input, once, and the value of its reply comes back; from any module only the value of what it left in its memory does. Refused without entering the module exactly on bad sizes and an unusable instance. Usable exactly while no release failed, and then every buffer ever handed over was freed exactly once. |
| SharedCoreBuffers.SharedCore.ReleaseEach | src/pomodorough/shared_core.py:160-171 | Each buffer is tried in turn; nothing fails exactly when the module refuses nothing and no pointer lacks its length. |
| SharedCoreBuffers.SharedCore.DispatchLocked | src/pomodorough/shared_core.py:268-308 | The same for one dispatch on every error path. |
| SharedCoreBuffers.DispatchBuffers.Execute | src/pomodorough/shared_core.py:118-158 | Every buffer handed over is recorded before anything else can fail; the answer is the value of what the module left. |
| SharedCoreBuffers.DispatchBuffers.AllocateBoth | src/pomodorough/shared_core.py:118-140 | Both buffers hold what they should when the module is called. |
| SharedCoreBuffers.DispatchBuffers.Ask | src/pomodorough/shared_core.py:118-140 | The module reads the two buffers and its answer is taken. |
| SharedCoreBuffers.DispatchBuffers.CaptureResult | src/pomodorough/shared_core.py:142-158 | An answer is taken if and only if it is neither empty nor too large and lies within the memory; the result is recorded in any case. |
| SharedCoreBuffers.WritingSpares | src/pomodorough/shared_core.py:310-330 | Writing one buffer leaves every buffer apart from it. |
| SharedCoreBuffers.DispatchBuffers.Release | src/pomodorough/shared_core.py:160-171 | All three are tried; a missing allocation counts as a failure, and with a sound module nothing fails. |
| SharedCoreBuffers.DispatchBuffers.HandedIsHeld | src/pomodorough/shared_core.py:160-171 | What is released is what was handed over. |
| SecretJournal.SecretStore.Mutate | src/pomodorough/secure_store.py:100-106 | A failed call may have taken effect. |
| SecretJournal.SecretMutationJournal.Watch | src/pomodorough/secure_store.py:235-240 | The value before the first mutation is what is remembered. |
| SecretJournal.SecretMutationJournal.Mutate | src/pomodorough/secure_store.py:225-233 | Exact condition: rollback stays possible unless a failed call on an already mutated key took effect; every failure is the provider's. |
| SecretJournal.CallSpoilsExactlyOneWay | src/pomodorough/secure_store.py:225-233 | A call spoils a key exactly when it fails, takes effect, and the key was already changed. |
| SecretJournal.CallsAreRemembered | src/pomodorough/secure_store.py:235-240 | Over any sequence of calls the first value seen of each key is the one from before the block. |
| SecretJournal.RollbackRestoresExactlyTheUnspoiled | src/pomodorough/secure_store.py:207-223 | Main result. After any sequence of calls a rollback brings back every secret if and only if no key was spoiled. |
| SecretJournal.CallsDecide | src/pomodorough/secure_store.py:225-233 | What journal and store hold of a key is what the last answered and the last effective call on it left. |
| SecretJournal.RollbackRestoresExactlyUnlessLeftBehind | src/pomodorough/secure_store.py:207-223 | The exact condition on the calls alone: a rollback brings back every secret if and only if on no key a failed call took effect after the last answered one, leaving another value than that one and than the first. |
| SecretJournal.TruthfulFailuresAreRolledBack | src/pomodorough/secure_store.py:207-223 | If no failed call takes effect, every secret comes back. |
| SecretJournal.UncertainSecondSaveStays | src/pomodorough/secure_store.py:207-223 | Counterexample: a save, then one that fails but takes effect; the second secret stays after the rollback. |
| SecretJournal.SecretMutationJournal.RestoreKeys | src/pomodorough/secure_store.py:207-223 | Every remembered key the provider did not refuse is restored, and exactly the refusals are counted. |
| SecretJournal.SecretMutationJournal.RestoreKey | src/pomodorough/secure_store.py:242-260 | A mutated key is restored only if it still holds the journal's last value. |
| SecretJournal.SecretMutationJournal.Rollback | src/pomodorough/secure_store.py:207-223 | Main result. With a provider that answers the whole store is as it was; with outside writes exactly the keys found as left are restored, others keep the outside value. |
| RevisionEvents.FindLF | src/pomodorough/network_revision.py:40-65 | Finds the first line feed. |
| RevisionEvents.LinesOfParts | src/pomodorough/network_revision.py:40-65 | A stream's lines are those of its start, then of what was left over and the rest. |
| RevisionEvents.RevisionsOfParts | src/pomodorough/network_revision.py:40-65 | Revisions of a stream are those of its parts in turn. |
| RevisionEvents.OverflowOfParts | src/pomodorough/network_revision.py:40-65 | So are overflows. |
| RevisionEvents.ChunkingDoesNotMatter | src/pomodorough/network_revision.py:40-65 | Main result. However the stream is cut, revisions, buffer and data lines are those of the whole; cutting never causes an overflow. |
| RevisionEvents.WrittenEventIsRead | src/pomodorough/network_revision.py:40-87 | An event written with LF or CR LF line ends is read as its joined data lines, with nothing left over. |
| RevisionEvents.OrdinaryEventIsRead | src/pomodorough/network_revision.py:40-87 | One data line with an object whose revision is a natural number answers that number. |
| RevisionEvents.BareRevisionIsRead | src/pomodorough/network_revision.py:40-87 | So does a bare number, or a text that is no JSON and spells one. |
| RevisionEvents.OtherLinesAreIgnored | src/pomodorough/network_revision.py:40-65 | A line that begins otherwise than `data:` and is not blank says and ends nothing. |
| RevisionEvents.DataLineIsRead | src/pomodorough/network_revision.py:40-65 | One space after the colon is taken off, and only one. |
| RevisionEvents.JoinedLinesComeBack | src/pomodorough/network_revision.py:67-87 | Data lines joined by line feeds split into those lines again. |
| RevisionEvents.ContinuesAfterLine | src/pomodorough/network_revision.py:40-65 | One turn of the loop keeps to the line specification. |
| RevisionEvents.RevisionEventParser.Discard | src/pomodorough/network_revision.py:35-38 | An overflow forgets everything. |
| RevisionEvents.RevisionEventParser.Feed | src/pomodorough/network_revision.py:40-65 | Main result. Answers the specified revisions, overflows exactly when specified, and keeps the byte counter equal to the pending data length. |
| RevisionEvents.RevisionEventParser.FeedLine | src/pomodorough/network_revision.py:40-65 | One line's effect. |
| RevisionEvents.WhatCarriesARevision | src/pomodorough/network_revision.py:67-87 | An object carries what its member "revision" does and nothing without one, anything else carries itself; exactly integers not below zero, numbers above -1 cut to the whole, and texts that spell such an integer carry a revision; booleans, nulls, lists and nested objects do not. |
| RevisionEvents.RevisionEventParser.Dispatch | src/pomodorough/network_revision.py:67-87 | A blank line reads the joined data, as JSON or else as text, and resets the event. |
| TrustedTime.SampleIsWithinUncertainty | src/pomodorough/storage.py:1049-1124 | Main result. Wherever the server stamped between request and receipt, acquired time and receipt plus offset are within the recorded uncertainty. |
| TrustedTime.UncertaintyIsTight | src/pomodorough/storage.py:1049-1090 | With agreeing clocks no smaller uncertainty would do. |
| TrustedTime.WhichSamplesAreTaken | src/pomodorough/storage.py:1049-1124 | Exactly the timings within bounds, drift and uncertainty are taken. |
| TrustedTime.WhenASampleIsCarriedOn | src/pomodorough/storage.py:1015-1029 | Exactly while the wall clock kept step with the monotonic one, and by the monotonic time passed. |
| TrustedTime.ProjectionKeepsTheError | src/pomodorough/storage.py:1015-1029 | Monotonic projection keeps exactly the acquired error. |
| TrustedTime.AnchoredKeepsTheError | src/pomodorough/storage.py:1197-1240 | So does an anchored answer, whatever the wall clock says by then. |
| TrustedTime.TrustedClock.Sampled | src/pomodorough/storage.py:1049-1090 | A refused sample changes nothing. |
| TrustedTime.TrustedClock.Now | src/pomodorough/storage.py:1197-1240 | Once anchored the wall clock plays no part; a discontinuity falls back to it. |
| TrustedTime.ElapsedMs | src/pomodorough/core.py:228-237 | Elapsed time is between zero and the planned duration. |
| TrustedTime.WhatElapsedMeans | src/pomodorough/core.py:228-237 | A running timer counts from its anchor to its plan, any other stays where it was. |
| TrustedTime.ElapsedIsClamped | src/pomodorough/core.py:228-237 | A negative plan is none, a negative start is zero, a start beyond the plan is the plan. |
| TrustedTime.TimerClock.EffectiveNow | src/pomodorough/storage.py:1156-1195 | The anchor is kept while identity and monotonic order last; the answer is the specified one. |
| TrustedTime.AnchorStays | src/pomodorough/storage.py:1156-1195 | With nondecreasing readings the first anchor stays. |
| TrustedTime.ElapsedOfOneReading | src/pomodorough/storage.py:1156-1195 | Elapsed at the effective time is the projected elapsed time. |
| TrustedTime.ElapsedNeverGoesBack | src/pomodorough/storage.py:1156-1195 | By one anchor it never goes back, whatever the time stamps. |
| TrustedTime.ElapsedFollowsTheMonotonicClock | src/pomodorough/storage.py:1156-1195 | Main result. Under arbitrary wall-clock jumps and re-stamped anchors elapsed time never decreases, advances exactly with the monotonic clock and stops at the planned duration. |
| Folds.BeforeIsStrict | src/pomodorough/core.py:69-104 | The sort key is a strict total order. |
| Folds.SortedKeeps | src/pomodorough/core.py:69-104 | Sorting keeps the operations and orders them strictly when keys are distinct. |
| Folds.FoldLeavesLastWriter | src/pomodorough/core.py:69-150 | A sorted replay leaves each entity as its last effective writer says. |
| Folds.LastEffectiveWriterWins | src/pomodorough/core.py:69-150 | In whatever order operations are queued, the effective writer with the greatest key decides; with none the base stays. |
| Folds.BeforeMeans | src/pomodorough/core.py:69-104 | The later key is the one with the greater wall time, then counter, then first differing code unit. |
| Folds.LatestDecides | src/pomodorough/core.py:69-150 | Main result. In whatever order operations are queued, the effective write latest by wall time, counter and code units decides. |
| Folds.TaskIsDecided | src/pomodorough/core.py:69-104 | On the operations themselves: a task has the title its latest valid upsert gave it, is gone after a latest delete, and stays without either. |
| Folds.DurationIsDecided | src/pomodorough/core.py:125-150 | A phase has the whole minutes its latest valid operation gave it, or else the server's, or else its default. |
| Folds.PreferenceIsDecided | src/pomodorough/core.py:107-122 | The preference is what its latest operation with a truth value says, or else the server's. |
| Folds.QueueOrderDoesNotMatter | src/pomodorough/core.py:69-150 | Main result. Two queues with the same operations project alike. |
| Folds.ReplacingKeepsTheState | src/pomodorough/storage.py:3125-3159 | Replacing an entity's operations by a later effective one changes nothing. |
| Folds.ReplacedDurationProjectsAlike | src/pomodorough/storage.py:3125-3159 | Main result. Replacing a phase's pending duration operation by a later-clocked one leaves the projection unchanged. |
| Folds.RebuildTasks | src/pomodorough/core.py:69-104 | Main result. With no two operations of one key, the list holds exactly the tasks the latest operations decide, each once, ordered by title and then identifier. |
| Folds.ProjectDurations | src/pomodorough/core.py:125-150 | Exactly the three phases, each with the duration its latest valid operation decides. |
| Folds.ProjectAutoStartBreaks | src/pomodorough/core.py:107-122 | The preference its latest valid operation decides. |

## Left out

- Replication.Exchange.PullUntilConverged: for an honest peer without conflicting records; replies that break the protocol are refused by the client and end the exchange.
- PeerInterleaving.BothLoopsEnd: peers are sets of references there, since stored records never change; payloads are in `Replication`.
- RecordStorage.RecordStore.InsertRemote: a record stands for its own digest, so two records with one digest are not modelled; neither are room membership and the SQL error text.
- TokenStorage.TokenStore.Save: a token stands for its SHA-256 digest; a response without tokens is refused by `AcceptTokens` before it gets here.
- AccountCalls.PerformAll: going on after a process that died inside a call without a power loss is not covered, since such a call reports nothing; a power loss inside a call is, by `PowerMayFailAtAnyMoment`. What a sign-out hands out to be revoked is modelled; enqueueing it is left out with revocation.
- QueueDatabase.QueueDatabase.Tick: the core's `hlc.tick.v1` is assumed to give the later of the two walls with a counter from zero, or one more on the same wall, and to refuse only when the counter is at its end.
- QueueDatabase.QueueDatabase.ApplySync: what the core projects when it replays the safe queues is any projection or none, because the core computes it; the persisted clock sample, which only the client writes, physical times, snapshots, settings, selected phase and auto-break tables are not modelled.
- QueueDatabase.QueueDatabase.QueueOperation: the rows a legacy migration queues with a zero clock are not modelled.
- Preflight.CheckQueue: reading a time stamp and the identity of a task title are arbitrary functions; columns that repeat a member of the payload are that member.
- Json.EqualIsReflexive: numbers that are not finite, which Python's decoder lets through, are not modelled.
- QueueDatabase.QueueDatabase.ClaimSync: batch planning is an arbitrary selection; the shape check of a saved claim and which device field the wire form of a preference carries are not modelled.
- Reconciliation.ParsedDependency: dependencies are not checked for cycles, as in the code.
- Reconciliation.ValidateProjected: checked by length and membership only, as in the code.
- CanonicalJson.CanonicalIsInjective: objects with keys that are not strings do not come out of a JSON decoder and are not modelled.
- SharedCoreBuffers.SharedCore.DispatchJson: decoding and parsing an envelope is an arbitrary function; loading and hashing the module are left out.
- FrameCodec.FramesAreExactlyTheEncodings: HMAC-SHA-256 is any function to 32 bytes; forgery is not reasoned about.
- RevisionEvents.RevisionEventParser.Dispatch: the JSON decoder, the text decoder and the reading of an integer from a text are arbitrary functions; numbers that are not finite are not modelled.
- Folds.RebuildTasks: title normalization and the identifier hash are an arbitrary function; the canonical tasks come as a map from identifier to title.
- The credential store without a secret store, the legacy `secret-tool` migration, the plaintext fallback and the write-through replacement on Windows.
- History resolution (`apply_resolution`), which installs by the same steps under another request.
- Record validation, invites, endpoint tickets, peer bookkeeping and the capture of local operations as records.
- The user interface, HTTP, OAuth, the event-stream connection, revocation, workspaces, sound and packaging.
- Identifier generation (UUIDv7), time-stamp parsing and SQLite itself: a transaction commits or leaves the tables as they were.
- Threads below the level of locked sections; locks are taken to exclude each other.
