/** Loading and saving the vault (src/context/AppContext.tsx, the two
    effects of `AppProvider`). Both are pure decisions here: the load returns
    the `SET_PASSWORDS` payload it would dispatch (or nothing), the save
    returns the key–value store after its write. */
module Persistence {
  import opened Types
  import opened Encryption
  import Auth
  import AppReducer

  const PasswordsKey := "passo-passwords"
  const BackupKey := "passo-passwords-backup"

  /** A row of the backend's `passwords` table. */
  datatype RemoteRow = RemoteRow(
    id: string,
    userId: string,
    website: string,
    email: string,
    encryptedPassword: string,
    createdAt: Timestamp,
    updatedAt: Timestamp)

  /** The backend's answer to a query: data, or an error. */
  datatype Remote<T> = Answered(data: T) | Failed(message: string)

  /** `k` has the same presence and value in both stores. */
  ghost predicate SameAt(a: Storage, b: Storage, k: string) {
    (k in a <==> k in b) && (k in a ==> a[k] == b[k])
  }

  /** Rebuilding entries from backend rows, decrypting only the secret column.
      One undecryptable row makes the whole batch fail, as the exception it
      raises aborts the `map`. */
  function DecodeRows(rows: seq<RemoteRow>, openSecret: string -> Option<string>): (r: Option<seq<PasswordEntry>>)
    ensures r.Some? <==> forall i :: 0 <= i < |rows| ==> openSecret(rows[i].encryptedPassword).Some?
    ensures r.Some? ==> |r.value| == |rows|
    ensures r.Some? ==> forall i :: 0 <= i < |rows| ==>
      && r.value[i].id == rows[i].id
      && r.value[i].website == rows[i].website
      && r.value[i].email == rows[i].email
      && Some(r.value[i].password) == openSecret(rows[i].encryptedPassword)
      && r.value[i].createdAt == rows[i].createdAt
      && r.value[i].updatedAt == rows[i].updatedAt
      && r.value[i].userId == Some(rows[i].userId)
  {
    if rows == [] then Some([])
    else
      var row := rows[0];
      match openSecret(row.encryptedPassword)
      case None => None
      case Some(secret) =>
        match DecodeRows(rows[1..], openSecret)
        case None => None
        case Some(rest) =>
          Some([PasswordEntry(row.id, row.website, row.email, secret, row.createdAt, row.updatedAt, Some(row.userId))] + rest)
  }

  /** The load effect: the payload it dispatches with `SET_PASSWORDS`, or
      `None` when it dispatches nothing. */
  function LoadPasswords(auth: Auth.Snapshot, store: Storage, remote: Remote<seq<RemoteRow>>, codec: Codec)
    : (r: Option<seq<PasswordEntry>>)
    // cloud path: the backend's rows, or nothing on a backend error
    ensures Auth.CloudActive(auth) && remote.Failed? ==> r == None
    ensures Auth.CloudActive(auth) && remote.Answered? ==> r == DecodeRows(remote.data, codec.openSecret)
    // local path: no stored blob and an unreadable blob both dispatch nothing
    ensures !Auth.CloudActive(auth) && (PasswordsKey !in store || store[PasswordsKey] == "") ==> r == None
    ensures !Auth.CloudActive(auth) && PasswordsKey in store && store[PasswordsKey] != "" ==>
      r == codec.openVault(store[PasswordsKey])
  {
    if Auth.CloudActive(auth) then
      match remote
      case Failed(_) => None
      case Answered(rows) => DecodeRows(rows, codec.openSecret)
    else
      match ReadNonEmpty(store, PasswordsKey)
      case None => None
      case Some(blob) => codec.openVault(blob)
  }

  /** The in-memory state after the load effect has run. */
  function AfterLoad(s: AppReducer.AppState, auth: Auth.Snapshot, store: Storage,
                     remote: Remote<seq<RemoteRow>>, codec: Codec): (r: AppReducer.AppState)
    ensures LoadPasswords(auth, store, remote, codec).None? ==> r == s
    ensures LoadPasswords(auth, store, remote, codec).Some? ==>
      r == s.(passwords := LoadPasswords(auth, store, remote, codec).value)
  {
    match LoadPasswords(auth, store, remote, codec)
    case None => s
    case Some(v) => AppReducer.Reduce(s, AppReducer.SetPasswords(v))
  }

  /** The key the save effect writes under. */
  function SaveKey(auth: Auth.Snapshot): string {
    if Auth.CloudActive(auth) then BackupKey else PasswordsKey
  }

  /** The save effect, as written: an empty vault writes nothing; otherwise the
      whole vault is sealed and written under the backup key while the cloud
      is active and under the primary key otherwise. `writeOk` says whether
      `localStorage.setItem` succeeds; a sealing or write failure is caught and
      leaves the store as it was. */
  function SavePasswords(passwords: seq<PasswordEntry>, auth: Auth.Snapshot, store: Storage, codec: Codec,
                         writeOk: bool): (r: Storage)
    ensures |passwords| == 0 ==> r == store
    ensures codec.sealVault(passwords).None? ==> r == store
    ensures !writeOk ==> r == store
    ensures forall k :: k != PasswordsKey && k != BackupKey ==> SameAt(store, r, k)
    ensures Auth.CloudActive(auth) ==> SameAt(store, r, PasswordsKey)
    ensures !Auth.CloudActive(auth) ==> SameAt(store, r, BackupKey)
    ensures |passwords| > 0 && codec.sealVault(passwords).Some? && writeOk ==>
      if Auth.CloudActive(auth) then BackupKey in r && r[BackupKey] == codec.sealVault(passwords).value
      else PasswordsKey in r && r[PasswordsKey] == codec.sealVault(passwords).value
  {
    if |passwords| == 0 then store
    else
      match codec.sealVault(passwords)
      case None => store
      case Some(blob) => if writeOk then store[SaveKey(auth) := blob] else store
  }

  /** A successful save in local mode followed by a load gives the saved vault
      back, whatever the backend would have answered. */
  lemma LocalSaveThenLoad(v: seq<PasswordEntry>, auth: Auth.Snapshot, store: Storage,
                          remote: Remote<seq<RemoteRow>>, codec: Codec)
    requires !Auth.CloudActive(auth) && |v| > 0
    requires codec.sealVault(v).Some? && VaultRoundTrips(codec, v)
    ensures LoadPasswords(auth, SavePasswords(v, auth, store, codec, true), remote, codec) == Some(v)
  {
  }

  /** While the cloud is active, a save whose write succeeds leaves a backup
      blob that opens to the current vault, and the primary local blob is not
      touched. */
  lemma CloudSaveKeepsBackup(v: seq<PasswordEntry>, auth: Auth.Snapshot, store: Storage, codec: Codec)
    requires Auth.CloudActive(auth) && |v| > 0
    requires codec.sealVault(v).Some? && VaultRoundTrips(codec, v)
    ensures var r := SavePasswords(v, auth, store, codec, true);
      && BackupKey in r && codec.openVault(r[BackupKey]) == Some(v)
      && SameAt(store, r, PasswordsKey)
  {
  }

  /** The local load never reads the backup blob: whatever it holds, the
      outcome is the same. */
  lemma LocalLoadIgnoresBackup(auth: Auth.Snapshot, store: Storage, blob: string,
                               remote: Remote<seq<RemoteRow>>, codec: Codec)
    requires !Auth.CloudActive(auth)
    ensures LoadPasswords(auth, store[BackupKey := blob], remote, codec) == LoadPasswords(auth, store, remote, codec)
  {
  }

  /** Deleting the only entry of a local vault and reloading brings the entry
      back: the save after the delete sees an empty vault and writes nothing,
      so the blob of the one-entry vault is still the one that is loaded. */
  lemma DeletedLastEntryReturnsOnReload(e: PasswordEntry, auth: Auth.Snapshot, store: Storage,
                                        remote: Remote<seq<RemoteRow>>, codec: Codec)
    requires !Auth.CloudActive(auth)
    requires codec.sealVault([e]).Some? && VaultRoundTrips(codec, [e])
    ensures var s := AppReducer.InitialState.(passwords := [e]);
      var stored := SavePasswords(s.passwords, auth, store, codec, true);
      var afterDelete := AppReducer.Reduce(s, AppReducer.DeletePassword(e.id));
      && afterDelete.passwords == []
      && SavePasswords(afterDelete.passwords, auth, stored, codec, true) == stored
      && LoadPasswords(auth, SavePasswords(afterDelete.passwords, auth, stored, codec, true), remote, codec) == Some([e])
  {
  }

  /** Signing out of cloud mode on a device with no local vault leaves the
      cloud vault in memory: the load that follows takes the local path,
      finds nothing stored and dispatches nothing, and the save that follows
      seals the cloud entries under the local key. */
  lemma SignOutCopiesCloudVaultToLocal(s: AppReducer.AppState, a: Auth.Snapshot, store: Storage,
                                       remote: Remote<seq<RemoteRow>>, codec: Codec)
    requires Auth.CloudActive(a) && |s.passwords| > 0
    requires PasswordsKey !in store
    requires codec.sealVault(s.passwords).Some?
    ensures var after := Auth.SignOut(a, true).after;
      var loaded := AfterLoad(s, after, store, remote, codec);
      var saved := SavePasswords(loaded.passwords, after, store, codec, true);
      && loaded.passwords == s.passwords
      && PasswordsKey in saved && saved[PasswordsKey] == codec.sealVault(s.passwords).value
  {
  }

  /** The save effect as evidently intended: it holds off only until the vault
      has been loaded (`hydrated`), which is what the empty-vault test guards
      against on first render, and from then on writes every vault, the empty
      one included. */
  function SaveHydrated(passwords: seq<PasswordEntry>, hydrated: bool, auth: Auth.Snapshot,
                        store: Storage, codec: Codec, writeOk: bool): (r: Storage)
    ensures !hydrated ==> r == store
    ensures codec.sealVault(passwords).None? ==> r == store
    ensures !writeOk ==> r == store
    ensures forall k :: k != PasswordsKey && k != BackupKey ==> SameAt(store, r, k)
    ensures Auth.CloudActive(auth) ==> SameAt(store, r, PasswordsKey)
    ensures !Auth.CloudActive(auth) ==> SameAt(store, r, BackupKey)
    ensures hydrated && codec.sealVault(passwords).Some? && writeOk ==>
      SaveKey(auth) in r && r[SaveKey(auth)] == codec.sealVault(passwords).value
  {
    if !hydrated then store
    else
      match codec.sealVault(passwords)
      case None => store
      case Some(blob) => if writeOk then store[SaveKey(auth) := blob] else store
  }

  /** With the corrected save, what is loaded is what was last saved, for every
      vault including the empty one. */
  lemma HydratedSaveThenLoad(v: seq<PasswordEntry>, auth: Auth.Snapshot, store: Storage,
                             remote: Remote<seq<RemoteRow>>, codec: Codec)
    requires !Auth.CloudActive(auth)
    requires codec.sealVault(v).Some? && VaultRoundTrips(codec, v)
    ensures LoadPasswords(auth, SaveHydrated(v, true, auth, store, codec, true), remote, codec) == Some(v)
  {
  }

  /** With the corrected save, deleting the last entry stays deleted after a
      reload. */
  lemma DeletedLastEntryStaysDeleted(e: PasswordEntry, auth: Auth.Snapshot, store: Storage,
                                     remote: Remote<seq<RemoteRow>>, codec: Codec)
    requires !Auth.CloudActive(auth)
    requires codec.sealVault([]).Some? && VaultRoundTrips(codec, [])
    ensures var s := AppReducer.InitialState.(passwords := [e]);
      var afterDelete := AppReducer.Reduce(s, AppReducer.DeletePassword(e.id));
      LoadPasswords(auth, SaveHydrated(afterDelete.passwords, true, auth, store, codec, true), remote, codec) == Some([])
  {
  }
}
