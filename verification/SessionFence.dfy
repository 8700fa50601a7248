/**
 * The account generation as a fence: the locked sections of background workers, interleaved with
 * sign-out, account deletion, expiry and shutdown.
 */
module SessionFence {
  import opened Prelude

  type Token = nat

  datatype Session = Session(
    generation: nat,
    shuttingDown: bool,
    signOutPending: bool,
    access: Option<Token>,
    refresh: Option<Token>,
    authenticated: bool,
    deletingAccount: bool,
    busy: bool,
    workers: map<nat, nat>)

  /** As a process starts. */
  const AT_START := Session(0, false, false, None, None, false, false, false, map[])

  /** One locked section, or one step on the user-interface thread. `g` is a captured generation. */
  datatype Event =
    | WorkerStarted(worker: nat)
    | WorkerFinished(worker: nat)
    | GenerationCaptured(g: nat)
    | TokensStored(g: nat, newAccess: Token, newRefresh: Token)
    | RefreshRefused(g: nat)
    | AccessDropped(g: nat)
    | SignOutPrepared
    | SignedOut
    | DeletionBegan
    | DeletionTokensStored(g: nat, sent: Token, newAccess: Token, newRefresh: Token)
    | DeletionCompleted(g: nat)
    | DeletionFailed(g: nat, cleanupPending: bool)
    | DeletionCleanedUp(access: Token, refresh: Token)
    | Authenticated
    | RestoreFailed
    | Expired
    | StreamRefused
    | ShutDown

  /** `assert_current_locked`: anything else raises and does nothing. */
  predicate Current(s: Session, g: nat) {
    !s.shuttingDown && !s.signOutPending && g == s.generation
  }

  predicate DeletionCurrent(s: Session, g: nat) {
    g == s.generation && !s.shuttingDown && s.authenticated && s.deletingAccount
  }

  /** A deletion's own refresh is also bound to the token it was sent with. */
  predicate DeletionRefreshCurrent(s: Session, g: nat, sent: Token) {
    DeletionCurrent(s, g) && s.refresh == Some(sent)
  }

  function Cleared(s: Session): Session {
    s.(access := None, refresh := None, authenticated := false)
  }

  /** A new account generation: nothing captured before it may act again. */
  function Fenced(s: Session): Session {
    s.(generation := s.generation + 1, busy := false, deletingAccount := false)
  }

  function Step(s: Session, e: Event): Session {
    match e
    case WorkerStarted(w) =>
      if s.signOutPending then s else s.(busy := true, workers := s.workers[w := s.generation])
    case WorkerFinished(w) =>
      var rest := s.workers - {w};
      s.(workers := rest, busy := exists other <- rest :: rest[other] == s.generation)
    case GenerationCaptured(_) => s
    case TokensStored(g, a, r) => if Current(s, g) then s.(access := Some(a), refresh := Some(r)) else s
    case RefreshRefused(_) => s
    case AccessDropped(g) => if Current(s, g) then s.(access := None) else s
    case SignOutPrepared => s.(signOutPending := true, generation := s.generation + 1, busy := false)
    case SignedOut => Cleared(Fenced(s)).(signOutPending := false)
    case DeletionBegan =>
      if s.authenticated && !s.deletingAccount && !s.shuttingDown
      then s.(generation := s.generation + 1, deletingAccount := true) else s
    case DeletionTokensStored(g, sent, a, r) =>
      if DeletionRefreshCurrent(s, g, sent) then s.(access := Some(a), refresh := Some(r)) else s
    case DeletionCompleted(g) => if DeletionCurrent(s, g) then Cleared(Fenced(s)) else s
    case DeletionFailed(g, cleanupPending) =>
      if !DeletionCurrent(s, g) then s
      else if cleanupPending then Cleared(Fenced(s)) else s.(deletingAccount := false)
    case DeletionCleanedUp(a, r) =>
      if (s.access.Some? && s.access.value != a) || (s.refresh.Some? && s.refresh.value != r) then s
      else if s.authenticated || s.access.Some? || s.refresh.Some? then Cleared(Fenced(s)) else s
    case Authenticated => s.(authenticated := true)
    case RestoreFailed => s.(access := None, authenticated := false)
    case Expired => Cleared(s)
    case StreamRefused => if s.shuttingDown || !s.authenticated then s else s.(access := None)
    case ShutDown => Fenced(s).(shuttingDown := true)
  }

  /** As it was, or signed out because it was the deleted account's. */
  ghost predicate CleanedUp(before: Session, after: Session) {
    exists a, r :: after in {before, Step(before, DeletionCleanedUp(a, r))}
  }

  function Run(s: Session, log: seq<Event>): Session {
    if log == [] then s else Step(Run(s, log[..|log| - 1]), log[|log| - 1])
  }

  /** A section that stores tokens, clears the store or drops the access token, and passed its fence. */
  predicate ActsFor(s: Session, e: Event, g: nat) {
    || ((e.TokensStored? || e.RefreshRefused? || e.AccessDropped?) && e.g == g && Current(s, g))
    || (e.DeletionTokensStored? && e.g == g && DeletionRefreshCurrent(s, g, e.sent))
  }

  /** Sections that end the life of everything captured before them. */
  predicate Fences(s: Session, e: Event) {
    || e.SignOutPrepared? || e.SignedOut? || e.ShutDown?
    || (e.DeletionBegan? && s.authenticated && !s.deletingAccount && !s.shuttingDown)
    || (e.DeletionCompleted? && DeletionCurrent(s, e.g))
    || (e.DeletionFailed? && DeletionCurrent(s, e.g) && e.cleanupPending)
  }

  /** An exchange that was current when it came back. */
  predicate Stores(s: Session, e: Event) {
    || (e.TokensStored? && Current(s, e.g))
    || (e.DeletionTokensStored? && DeletionRefreshCurrent(s, e.g, e.sent))
  }

  /** Cleanup owed for a deleted account ends the session unless it holds another account's token. */
  predicate CleansUp(s: Session, e: Event) {
    && e.DeletionCleanedUp? && s.access in {None, Some(e.access)} && s.refresh in {None, Some(e.refresh)}
    && (s.authenticated || s.access.Some? || s.refresh.Some?)
  }

  /** Nothing of the session is left in memory. */
  predicate Ends(s: Session, e: Event) {
    || e.SignedOut? || e.Expired? || CleansUp(s, e)
    || (e.DeletionCompleted? && DeletionCurrent(s, e.g))
    || (e.DeletionFailed? && DeletionCurrent(s, e.g) && e.cleanupPending)
  }

  predicate LosesAccess(s: Session, e: Event) {
    || (e.AccessDropped? && Current(s, e.g)) || e.RestoreFailed?
    || (e.StreamRefused? && s.authenticated && !s.shuttingDown)
  }

  /** Field by field, which events write it. */
  lemma TokensHaveTheirWriters(s: Session, e: Event)
    ensures Step(s, e).access == if Stores(s, e) then Some(e.newAccess)
                                 else if Ends(s, e) || LosesAccess(s, e) then None else s.access
    ensures Step(s, e).refresh == if Stores(s, e) then Some(e.newRefresh) else if Ends(s, e) then None else s.refresh
  {
    match e
    case TokensStored(_, _, _) =>
    case DeletionTokensStored(_, _, _, _) =>
    case DeletionCompleted(_) =>
    case DeletionFailed(_, _) =>
    case DeletionCleanedUp(_, _) =>
    case _ =>
  }

  lemma FlagsHaveTheirWriters(s: Session, e: Event)
    ensures var after := Step(s, e);
            && (after.shuttingDown <==> s.shuttingDown || e.ShutDown?)
            && (after.signOutPending <==> e.SignOutPrepared? || (s.signOutPending && !e.SignedOut?))
            && (after.authenticated <==>
                  e.Authenticated? || (s.authenticated && !Ends(s, e) && !e.RestoreFailed?))
  {
    match e
    case DeletionCompleted(_) =>
    case DeletionFailed(_, _) =>
    case DeletionCleanedUp(_, _) =>
    case _ =>
  }

  lemma WhoDeletes(s: Session, e: Event)
    ensures Step(s, e).deletingAccount <==>
              || (e.DeletionBegan? && s.authenticated && !s.shuttingDown)
              || (s.deletingAccount && e.SignOutPrepared?)
              || (s.deletingAccount && !Fences(s, e) && !CleansUp(s, e)
                  && !(e.DeletionFailed? && DeletionCurrent(s, e.g)))
  {
    match e
    case DeletionCompleted(_) =>
    case DeletionFailed(_, _) =>
    case DeletionCleanedUp(_, _) =>
    case _ =>
  }

  lemma WhoWorks(s: Session, e: Event)
    ensures var after := Step(s, e);
            if e.WorkerStarted? && !s.signOutPending then
              after.busy && after.workers == s.workers[e.worker := s.generation]
            else if e.WorkerFinished? then
              && after.workers == s.workers - {e.worker}
              && (after.busy <==> exists w <- after.workers :: after.workers[w] == s.generation)
            else
              && after.workers == s.workers
              && (after.busy <==> s.busy && (e.DeletionBegan? || (!Fences(s, e) && !CleansUp(s, e))))
  {
    match e
    case WorkerFinished(_) =>
    case DeletionCompleted(_) =>
    case DeletionFailed(_, _) =>
    case DeletionCleanedUp(_, _) =>
    case _ =>
  }

  lemma StepRaisesGeneration(s: Session, e: Event)
    ensures Step(s, e).generation == if Fences(s, e) || CleansUp(s, e) then s.generation + 1 else s.generation
  {
    match e
    case DeletionCompleted(_) =>
    case DeletionFailed(_, _) =>
    case DeletionCleanedUp(_, _) =>
    case _ =>
  }

  lemma {:induction false} GenerationNeverFalls(s: Session, log: seq<Event>, i: nat)
    requires i <= |log|
    ensures Run(s, log[..i]).generation <= Run(s, log).generation
    decreases |log|
  {
    if i < |log| {
      var prefix := log[..|log| - 1];
      GenerationNeverFalls(s, prefix, i);
      assert prefix[..i] == log[..i];
      StepRaisesGeneration(Run(s, prefix), log[|log| - 1]);
    } else {
      assert log[..i] == log;
    }
  }

  /**
   * Over every interleaving: a worker that captured generation `g` acts only if the account has
   * been at `g` ever since, so no sign-out, deletion or shutdown came in between.
   */
  lemma {:induction false} WorkersActOnlyForTheirAccount(s: Session, log: seq<Event>, captured: nat, acted: nat, k: nat)
    requires captured <= k < acted < |log|
    requires log[captured].GenerationCaptured? && Current(Run(s, log[..captured]), log[captured].g)
    requires ActsFor(Run(s, log[..acted]), log[acted], log[captured].g)
    ensures Run(s, log[..k]).generation == log[captured].g
    ensures !Fences(Run(s, log[..k]), log[k])
  {
    var upTo := log[..acted];
    assert upTo[..captured] == log[..captured] && upTo[..k] == log[..k] && upTo[..k + 1] == log[..k + 1];
    GenerationNeverFalls(s, upTo, k);
    GenerationNeverFalls(s, upTo, k + 1);
    GenerationNeverFalls(s, log[..k], captured);
    assert log[..k][..captured] == log[..captured];
    assert log[..k + 1][..k] == log[..k];
    StepRaisesGeneration(Run(s, log[..k]), log[k]);
  }

  /** After a fence, whatever a worker captured earlier does is refused and changes nothing. */
  lemma {:induction false} FencedWorkersChangeNothing(s: Session, log: seq<Event>, fence: nat, e: Event)
    requires fence < |log| && Fences(Run(s, log[..fence]), log[fence])
    requires e.TokensStored? || e.RefreshRefused? || e.AccessDropped? || e.DeletionTokensStored?
    requires e.g <= Run(s, log[..fence]).generation
    ensures !ActsFor(Run(s, log), e, e.g) && Step(Run(s, log), e) == Run(s, log)
  {
    GenerationNeverFalls(s, log, fence + 1);
    assert log[..fence + 1][..fence] == log[..fence];
    StepRaisesGeneration(Run(s, log[..fence]), log[fence]);
  }

  /** A worker running for the current account keeps the service busy. */
  predicate BusyCoversWorkers(s: Session) {
    && (forall w <- s.workers :: s.workers[w] <= s.generation)
    && ((exists w <- s.workers :: s.workers[w] == s.generation) ==> s.busy)
  }

  lemma StepKeepsBusy(s: Session, e: Event)
    requires BusyCoversWorkers(s)
    ensures BusyCoversWorkers(Step(s, e))
  {
  }

  lemma {:induction false} BusyWhileWorkersRun(s: Session, log: seq<Event>)
    requires BusyCoversWorkers(s)
    ensures BusyCoversWorkers(Run(s, log))
  {
    if log != [] {
      var prefix := log[..|log| - 1];
      BusyWhileWorkersRun(s, prefix);
      StepKeepsBusy(Run(s, prefix), log[|log| - 1]);
    }
  }

  /**
   A token in memory is one that an exchange of the account stored while it was current, and the
   session has not ended since.
   */
  ghost predicate StoredSince(log: seq<Event>, a: Option<Token>, r: Option<Token>) {
    exists i :: StoredAt(log, i, r) && (a.Some? ==> log[i].newAccess == a.value)
  }

  ghost predicate StoredAt(log: seq<Event>, i: int, r: Option<Token>) {
    && 0 <= i < |log| && Stores(Run(AT_START, log[..i]), log[i]) && Some(log[i].newRefresh) == r
    && (forall j | i < j < |log| :: !Ends(Run(AT_START, log[..j]), log[j]))
  }

  lemma {:induction false} HeldTokensWereStored(log: seq<Event>)
    ensures var s := Run(AT_START, log);
            if s.refresh.Some? then StoredSince(log, s.access, s.refresh) else s.access.None?
  {
    if log == [] { return; }
    var prefix, e := log[..|log| - 1], log[|log| - 1];
    var s := Run(AT_START, prefix);
    HeldTokensWereStored(prefix);
    TokensHaveTheirWriters(s, e);
    if Stores(s, e) {
      assert StoredAt(log, |log| - 1, Step(s, e).refresh);
    } else if s.refresh.Some? && !Ends(s, e) {
      var i :| StoredAt(prefix, i, s.refresh) && (s.access.Some? ==> prefix[i].newAccess == s.access.value);
      StaysStored(log, i, s.refresh);
    }
  }

  lemma StaysStored(log: seq<Event>, i: int, r: Option<Token>)
    requires log != [] && StoredAt(log[..|log| - 1], i, r)
    requires !Ends(Run(AT_START, log[..|log| - 1]), log[|log| - 1])
    ensures StoredAt(log, i, r)
  {
    var prefix := log[..|log| - 1];
    assert log[..i] == prefix[..i];
    forall j | i < j < |log| ensures !Ends(Run(AT_START, log[..j]), log[j]) {
      if j < |log| - 1 { assert log[..j] == prefix[..j]; }
    }
  }

  /** Once shutting down, no exchange stores a token and no deletion begins, whatever comes. */
  lemma {:induction false} ShutDownIsFinal(s: Session, log: seq<Event>, e: Event)
    requires s.shuttingDown
    ensures Run(s, log).shuttingDown && !Stores(Run(s, log), e)
    ensures Run(s, log).access in {s.access, None} && Run(s, log).refresh in {s.refresh, None}
    ensures Run(s, log).deletingAccount ==> s.deletingAccount
  {
    if log != [] {
      var prefix := log[..|log| - 1];
      ShutDownIsFinal(s, prefix, log[|log| - 1]);
      TokensHaveTheirWriters(Run(s, prefix), log[|log| - 1]);
      FlagsHaveTheirWriters(Run(s, prefix), log[|log| - 1]);
      WhoDeletes(Run(s, prefix), log[|log| - 1]);
    }
  }

  /** Between preparing a sign-out and its end no worker starts and no ordinary exchange stores a token. */
  lemma {:induction false} SignOutHoldsUntilDone(s: Session, log: seq<Event>, e: Event)
    requires s.signOutPending && (forall i | 0 <= i < |log| :: !log[i].SignedOut?)
    requires e.WorkerStarted? || e.TokensStored? || e.AccessDropped?
    ensures Run(s, log).signOutPending && Step(Run(s, log), e) == Run(s, log)
  {
    if log != [] {
      var prefix := log[..|log| - 1];
      SignOutHoldsUntilDone(s, prefix, e);
      FlagsHaveTheirWriters(Run(s, prefix), log[|log| - 1]);
    }
  }
}
