/**
 What is on disk and in the keyring while credentials are saved, replayed, cleared or deleted,
 as a machine of single file and keyring steps.

 Every file of the token store is a sibling in one directory, so a directory sync makes all of
 them durable together. Until then a power loss may leave any value an entry has had since the
 last sync. The keyring is durable at once.

 A token is represented by its SHA-256 digest.
 */
module CredentialModel {
  import opened Prelude

  type Digest = nat
  type ApiBase = nat

  /** A directory entry: what a reader sees now, and what a power loss may leave behind. */
  datatype Entry<T(==)> = Entry(visible: T, onDisk: set<T>) {
    predicate Valid() { visible in onDisk }

    predicate Durable() { onDisk == {visible} }

    function Replaced(value: T): Entry<T> { Entry(value, onDisk + {value}) }

    function Synced(): Entry<T> { Entry(visible, {visible}) }
  }

  datatype TokenResponse = TokenResponse(access: Digest, refresh: Digest, refreshExpiresAt: nat)

  /** The document kept in the keyring. */
  datatype Stored = Stored(api: ApiBase, refresh: Digest, refreshExpiresAt: nat)

  datatype Identity = Identity(api: ApiBase, access: Digest, refresh: Digest)

  /** The commit journal: one token response, bound to the API it came from. */
  datatype Commit = Commit(api: ApiBase, response: TokenResponse)

  /** The identity file. Missing and cleared both name nobody. */
  datatype Record =
    | NoRecord
    | Cleared
    | Active(id: Identity)
    | Confirmed(id: Identity, generation: int)

  datatype Marker =
    | Pending(id: Identity, generation: int)
    | LegacyMarker
    | Malformed

  function StoredOf(c: Commit): Stored {
    Stored(c.api, c.response.refresh, c.response.refreshExpiresAt)
  }

  function IdentityOf(c: Commit): Identity {
    Identity(c.api, c.response.access, c.response.refresh)
  }

  function Named(r: Record): Option<Identity> {
    if r.Active? || r.Confirmed? then Some(r.id) else None
  }

  /** The comparison the store itself makes between the keyring and the identity file. */
  predicate StoredMatches(s: Stored, id: Identity) {
    s.api == id.api && s.refresh == id.refresh
  }

  /**
   `writer` and `untouched` are history: the commit that last wrote the keyring, and whether the
   keyring is as it was when the newest journal was written. No operation reads them.
   */
  datatype World = World(
    journal: Entry<Option<Commit>>,
    tombstone: Entry<bool>,
    record: Entry<Record>,
    marker: Entry<Option<Marker>>,
    secret: Option<Stored>,
    writer: Option<Commit>,
    untouched: bool)

  datatype Action =
    | JournalWritten(commit: Commit)
    | JournalRemoved
    | SecretSaved
    | SecretDeleted
    | TombstoneWritten
    | TombstoneRemoved
    | RecordWritten(doc: Record)
    | MarkerWritten(marker: Marker)
    | MarkerRemoved
    | DirectorySynced
    | MarkerDamaged(left: Option<Marker>)
    | PowerLost(journal: Option<Commit>, tombstone: bool, record: Record, surviving: Option<Marker>)

  function Apply(w: World, a: Action): World {
    match a
    case JournalWritten(c) => w.(journal := w.journal.Replaced(Some(c)), untouched := true)
    case JournalRemoved => w.(journal := w.journal.Replaced(None))
    case SecretSaved =>
      if w.journal.visible.None? then w
      else w.(secret := Some(StoredOf(w.journal.visible.value)),
              writer := w.journal.visible,
              untouched := false)
    case SecretDeleted => w.(secret := None)
    case TombstoneWritten => w.(tombstone := w.tombstone.Replaced(true))
    case TombstoneRemoved => w.(tombstone := w.tombstone.Replaced(false))
    case RecordWritten(doc) => w.(record := w.record.Replaced(doc))
    case MarkerWritten(m) => w.(marker := w.marker.Replaced(Some(m)))
    case MarkerRemoved => w.(marker := w.marker.Replaced(None))
    case DirectorySynced =>
      w.(journal := w.journal.Synced(), tombstone := w.tombstone.Synced(),
         record := w.record.Synced(), marker := w.marker.Synced())
    case MarkerDamaged(m) => w.(marker := Entry(m, {m}))
    case PowerLost(j, t, r, m) =>
      w.(journal := Entry(j, {j}), tombstone := Entry(t, {t}),
         record := Entry(r, {r}), marker := Entry(m, {m}))
  }

  /** What the code has established whenever it takes a step. */
  predicate Guard(w: World, a: Action) {
    match a
    case JournalWritten(_) =>
      w.journal.visible.None? && w.marker.visible.None? && !w.record.visible.Confirmed?
    case JournalRemoved =>
      && w.journal.visible.Some?
      && (w.untouched || (w.writer == w.journal.visible && Installed(w, w.journal.visible.value)))
    case SecretSaved => w.journal.visible.Some?
    case SecretDeleted => w.journal.onDisk == {None} && w.tombstone.onDisk == {true}
    case TombstoneWritten => w.journal.visible.None?
    case TombstoneRemoved => Replaying(w)
    case RecordWritten(doc) =>
      (match doc
       case Active(id) =>
         Replaying(w) && id == IdentityOf(w.journal.visible.value)
       case Cleared =>
         w.journal.onDisk == {None} && w.tombstone.onDisk == {true} && w.secret.None?
       case Confirmed(id, _) =>
         && w.journal.visible.None?
         && Named(w.record.visible) == Some(id)
         && (w.secret.Some? ==> StoredMatches(w.secret.value, id))
       case NoRecord => false)
    case MarkerWritten(m) =>
      m.Pending? && w.journal.visible.None? && Named(w.record.visible) == Some(m.id)
    case MarkerRemoved => w.marker.visible.Some?
    case DirectorySynced => true
    case MarkerDamaged(m) => m.None? || m.value.Malformed?
    case PowerLost(j, t, r, m) =>
      j in w.journal.onDisk && t in w.tombstone.onDisk && r in w.record.onDisk && m in w.marker.onDisk
  }

  /** The keyring was last written from the visible journal; a replay always begins with that. */
  predicate Replaying(w: World) {
    w.journal.visible.Some? && !w.untouched && w.writer == w.journal.visible
  }

  /** Everything the commit stands for has reached the keyring and the synced identity file. */
  predicate Installed(w: World, c: Commit) {
    && w.secret == Some(StoredOf(c))
    && !w.tombstone.visible
    && w.record.onDisk == {Active(IdentityOf(c))}
    && w.record.Valid()
  }

  function After(w: World, log: seq<Action>): World {
    if log == [] then w else Apply(After(w, log[..|log| - 1]), log[|log| - 1])
  }

  /** A run: every step was taken with its guard established. */
  predicate Legal(w: World, log: seq<Action>) {
    log == [] ||
    (Legal(w, log[..|log| - 1]) && Guard(After(w, log[..|log| - 1]), log[|log| - 1]))
  }

  /** What the credentials are once recovery has completed on what is visible. */
  datatype View = View(secret: Option<Stored>, signedOut: bool, record: Record)

  function ViewOf(c: Commit): View {
    View(Some(StoredOf(c)), false, Active(IdentityOf(c)))
  }

  function Recovered(w: World): View {
    match w.journal.visible
    case Some(c) => ViewOf(c)
    case None => View(w.secret, w.tombstone.visible, w.record.visible)
  }

  /** What `load` finds after recovery: a tombstone hides whatever the keyring still holds. */
  function Loadable(v: View): Option<Stored> {
    if v.signedOut then None else v.secret
  }

  predicate WellFormed(w: World) {
    w.journal.Valid() && w.tombstone.Valid() && w.record.Valid() && w.marker.Valid()
  }

  lemma StaysWellFormed(w: World, a: Action)
    requires WellFormed(w)
    ensures WellFormed(Apply(w, a))
  {
  }
}
