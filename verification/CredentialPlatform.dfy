/** The directory and the keyring as the token store uses them: every call may fail. */
module CredentialPlatform {
  import opened Prelude
  import opened CredentialModel
  import opened CredentialSafety

  /**
   * How an operation ended. `CommitPending` is `TokenCommitPendingError`, `CleanupPending` is
   * `TokenCleanupPendingError`, `Failed` any other operating-system or secure-store error.
   */
  datatype Status = Ok | Failed | CommitPending(duringRecovery: bool) | CleanupPending

  datatype KeyringResult = Saved | Rejected | Uncertain

  /**
   * A visible journal cannot be lost, no removed marker can come back, and a removed journal that
   * may come back names the identity on record.
   */
  ghost predicate AtRest(w: World) {
    && (w.journal.visible.Some? ==> w.journal.Durable())
    && (w.journal.visible.None? ==>
          forall c: Commit | Some(c) in w.journal.onDisk :: Named(w.record.visible) == Some(IdentityOf(c)))
    && (w.marker.visible.None? ==> w.marker.Durable())
  }

  class Platform {
    var world: World
    ghost const origin: World
    ghost var log: seq<Action>
    /** A platform on which no call fails; otherwise each call may. */
    const reliable: bool

    constructor (start: World, reliable: bool)
      requires WellFormed(start)
      ensures Valid() && world == origin == start && log == [] && this.reliable == reliable
    {
      world, origin, log := start, start, [];
      this.reliable := reliable;
    }

    /** The present is the end of a run that began at `origin`. */
    ghost predicate Valid()
      reads this
    {
      WellFormed(world) && Legal(origin, log) && world == After(origin, log)
    }

    /** No keyring write under a journal that could be lost, no marker or journal over an unsettled other. */
    ghost predicate Disciplined()
      reads this
    {
      SafeReplays(origin, log) && MarkersSettled(origin, log)
    }

    /** No power loss can do harm through what is left unsynced. */
    ghost predicate Quiet()
      reads this
    {
      AtRest(world)
    }

    /** Marker and record stood so together at a moment of the run from its step `from` on. */
    ghost predicate Stood(from: nat, marker: Marker, record: Record)
      reads this
    {
      exists k :: StoodAt(from, k, marker, record)
    }

    ghost predicate StoodAt(from: nat, k: int, marker: Marker, record: Record)
      reads this
    {
      && from <= k <= |log|
      && var w := After(origin, log[..k]);
         w.marker.visible == Some(marker) && w.record.visible == record
    }

    lemma StoodThen(from: nat, moment: seq<Action>, marker: Marker, record: Record)
      requires from <= |moment| && moment <= log
      requires After(origin, moment).marker.visible == Some(marker) && After(origin, moment).record.visible == record
      ensures Stood(from, marker, record)
    {
      assert log[..|moment|] == moment;
      assert StoodAt(from, |moment|, marker, record);
    }

    lemma StoodSince(from: nat, later: nat, marker: Marker, record: Record)
      requires from <= later && Stood(later, marker, record)
      ensures Stood(from, marker, record)
    {
      var k :| StoodAt(later, k, marker, record);
      assert StoodAt(from, k, marker, record);
    }

    method Take(a: Action)
      requires Valid() && Guard(world, a)
      modifies this
      ensures Valid() && world == Apply(old(world), a) && log == old(log) + [a]
      ensures Disciplined() <==> old(Disciplined()) && SafeReplay(old(world), a) && MarkerSettled(old(world), a)
    {
      AfterExtends(origin, log, a);
      StaysWellFormed(world, a);
      assert (log + [a])[..|log|] == log;
      world := Apply(world, a);
      log := log + [a];
    }

    method Read() returns (ok: bool)
      ensures reliable ==> ok
    {
      ok := true;
      if !reliable {
        if * { ok := false; }
      }
    }

    /** Write a synced temporary file, put it in place of the target, sync the directory. */
    method Write(a: Action) returns (status: Status, replaced: bool)
      requires Valid() && Guard(world, a)
      requires a.JournalWritten? || a.TombstoneWritten? || a.RecordWritten? || a.MarkerWritten?
      modifies this
      ensures Valid() && old(log) <= log && status in {Ok, Failed}
      ensures !replaced ==> status == Failed && world == old(world) && log == old(log)
      ensures replaced && status == Failed ==> world == Apply(old(world), a)
      ensures status == Ok ==> replaced && world == Apply(Apply(old(world), a), DirectorySynced)
      ensures reliable ==> status == Ok
      ensures old(Disciplined()) && MarkerSettled(old(world), a) ==> Disciplined()
    {
      replaced := false;
      var ok := Read();
      if !ok { return Failed, false; }
      Take(a);
      replaced := true;
      ok := Read();
      if !ok { return Failed, true; }
      Take(DirectorySynced);
      status := Ok;
    }

    /** Unlink a file that is there, then sync the directory. */
    method Remove(a: Action) returns (status: Status, unlinked: bool)
      requires Valid() && Guard(world, a)
      requires a.JournalRemoved? || a.TombstoneRemoved? || a.MarkerRemoved?
      modifies this
      ensures Valid() && old(log) <= log && status in {Ok, Failed}
      ensures !unlinked ==> status == Failed && world == old(world) && log == old(log)
      ensures unlinked && status == Failed ==> world == Apply(old(world), a)
      ensures status == Ok ==> unlinked && world == Apply(Apply(old(world), a), DirectorySynced)
      ensures reliable ==> status == Ok
      ensures old(Disciplined()) ==> Disciplined()
    {
      unlinked := false;
      var ok := Read();
      if !ok { return Failed, false; }
      Take(a);
      unlinked := true;
      ok := Read();
      if !ok { return Failed, true; }
      Take(DirectorySynced);
      status := Ok;
    }

    /** Save the journal's secret. A rejected call changed nothing; an uncertain one may have. */
    method SaveSecret() returns (result: KeyringResult)
      requires Valid() && world.journal.visible.Some?
      modifies this
      ensures Valid() && old(log) <= log
      ensures result == Saved ==> world == Apply(old(world), SecretSaved)
      ensures result == Rejected ==> world == old(world)
      ensures result == Uncertain ==> world in {old(world), Apply(old(world), SecretSaved)}
      ensures reliable ==> result == Saved
      ensures old(Disciplined() && world.journal.Durable()) ==> Disciplined()
    {
      var ok := Read();
      if ok {
        Take(SecretSaved);
        result := Saved;
      } else if * {
        result := Rejected;
      } else {
        if * { Take(SecretSaved); }
        result := Uncertain;
      }
    }

    method DeleteSecret() returns (status: Status)
      requires Valid() && Guard(world, SecretDeleted)
      modifies this
      ensures Valid() && old(log) <= log && status in {Ok, Failed}
      ensures world in {old(world), Apply(old(world), SecretDeleted)}
      ensures status == Ok ==> world == Apply(old(world), SecretDeleted)
      ensures reliable ==> status == Ok
      ensures old(Disciplined()) ==> Disciplined()
    {
      var ok := Read();
      if ok {
        Take(SecretDeleted);
        status := Ok;
      } else {
        if * { Take(SecretDeleted); }
        status := Failed;
      }
    }

    /** Power fails: each entry becomes one of the values it may have on disk. */
    method LosePower(journal: Option<Commit>, tombstone: bool, record: Record, marker: Option<Marker>)
      requires Valid() && Guard(world, PowerLost(journal, tombstone, record, marker))
      modifies this
      ensures Valid() && old(log) <= log
      ensures world == Apply(old(world), PowerLost(journal, tombstone, record, marker))
      ensures Quiet() && (old(Disciplined()) ==> Disciplined())
    {
      Take(PowerLost(journal, tombstone, record, marker));
    }
  }

  /** Whoever drives the platform: a run stayed disciplined exactly if no power loss could ever have hurt. */
  lemma DisciplinedPlatformAgrees(p: Platform)
    requires p.Valid() && Sound(p.origin) && MarkerSound(p.origin)
    ensures p.Disciplined() <==> NeverSplits(p.origin, p.log) && NeverParts(p.origin, p.log)
    ensures p.Disciplined() ==> SameResponse(p.world) && MarkerAgrees(p.world)
  {
    CredentialsAgreeOverEveryRun(p.origin, p.log);
    MarkersAgreeOverEveryRun(p.origin, p.log);
  }

  lemma {:induction false} BeginningsStayDisciplined(w: World, log: seq<Action>, k: nat)
    requires k <= |log| && Legal(w, log) && SafeReplays(w, log) && MarkersSettled(w, log)
    ensures Legal(w, log[..k]) && SafeReplays(w, log[..k]) && MarkersSettled(w, log[..k])
    decreases |log|
  {
    if k < |log| {
      BeginningsStayDisciplined(w, log[..|log| - 1], k);
      assert log[..|log| - 1][..k] == log[..k];
    } else {
      assert log[..k] == log;
    }
  }

  /**
   * Power may fail in the middle of a call as well: whatever a disciplined run leaves then is a
   * state from which the next process can begin a disciplined run.
   */
  lemma PowerMayFailAtAnyMoment(p: Platform, k: nat, loss: Action)
    requires p.Valid() && p.Disciplined() && Sound(p.origin) && MarkerSound(p.origin) && k <= |p.log|
    requires loss.PowerLost? && Guard(After(p.origin, p.log[..k]), loss)
    ensures var left := Apply(After(p.origin, p.log[..k]), loss); Sound(left) && MarkerSound(left) && AtRest(left)
  {
    var w := After(p.origin, p.log[..k]);
    BeginningsStayDisciplined(p.origin, p.log, k);
    SafeRunsStaySound(p.origin, p.log[..k]);
    SettledRunsStaySound(p.origin, p.log[..k]);
    StepKeepsSound(w, loss);
    StepKeepsMarkerSound(w, loss);
  }
}
