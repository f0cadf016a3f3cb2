/** The authentication context (src/context/AuthContext.tsx): which storage
    mode is active, whether a user is signed in, and whether the cloud backend
    is configured at all. Session handling is the backend's; only its answers
    are modelled. */
module Auth {
  import opened Types

  const StorageModeKey := "passo-storage-mode"
  const NotConfiguredMessage := "Cloud storage is not configured"

  /** What `useAuth()` hands to its consumers. */
  datatype Snapshot = Snapshot(user: Option<User>, storageMode: StorageMode, available: bool)

  /** The three-way condition under which the cloud backend is the vault's
      store: mode `cloud`, someone signed in, backend configured. */
  predicate CloudActive(a: Snapshot) {
    a.storageMode == Cloud && a.user.Some? && a.available
  }

  /** The intended invariant of the mode switch: `cloud` only while the
      backend is available. */
  predicate ModeAllowed(mode: StorageMode, available: bool) {
    mode == Cloud ==> available
  }

  /** The string a mode is persisted as. */
  function ModeName(m: StorageMode): string {
    match m
    case Local => "local"
    case Cloud => "cloud"
  }

  /** The mode adopted at start-up from the persisted preference `saved`
      (`localStorage.getItem`, `None` when missing). The state starts as
      `local` and is overwritten only by an acceptable saved value. */
  function ResolveSavedMode(saved: Option<string>, available: bool): (m: StorageMode)
    ensures ModeAllowed(m, available)
    ensures saved == Some("local") ==> m == Local
    ensures m == Cloud <==> saved == Some("cloud") && available
  {
    var initial := Local;
    match saved
    case Some(v) =>
      if v != "" && (v == "local" || (v == "cloud" && available)) then
        (if v == "local" then Local else Cloud)
      else initial
    case None => initial
  }

  /** `setStorageMode`: the new mode becomes current and is persisted under
      `passo-storage-mode`; no other key is written. */
  function SetStorageMode(mode: StorageMode, store: Storage): (r: (StorageMode, Storage))
    ensures r.0 == mode
    ensures StorageModeKey in r.1 && r.1[StorageModeKey] == ModeName(mode)
    ensures forall k :: k != StorageModeKey ==> (k in r.1 <==> k in store)
    ensures forall k :: k in store && k != StorageModeKey ==> r.1[k] == store[k]
  {
    (mode, store[StorageModeKey := ModeName(mode)])
  }

  /** A mode that was allowed when it was stored is the one adopted when the
      application starts again: `setStorageMode` and the start-up read agree. */
  lemma PersistedModeIsRestored(mode: StorageMode, store: Storage, available: bool)
    requires ModeAllowed(mode, available)
    ensures ResolveSavedMode(ReadNonEmpty(SetStorageMode(mode, store).1, StorageModeKey), available) == mode
  {
  }

  /** The two credential requests of the backend. */
  datatype AuthKind = SignUp | SignIn

  /** The backend's answer to a credential request: accepted, refused with an
      error message, or a thrown exception. */
  datatype AuthResult = AuthOk | AuthError(message: string) | AuthThrew

  /** What a `signUp`/`signIn` call did: which backend request it issued, if
      any, and what it returned. */
  datatype AuthCall = AuthCall(request: Option<AuthKind>, result: AuthResult)

  /** `signUp` and `signIn`: without a configured backend they answer with the
      "not configured" error and never reach the backend; otherwise they pass
      the backend's answer through. */
  function RequestAuth(kind: AuthKind, available: bool, backend: AuthResult): (c: AuthCall)
    ensures c.request.Some? <==> available
    ensures c.request.Some? ==> c.request.value == kind && c.result == backend
    ensures !available ==> c.result == AuthError(NotConfiguredMessage)
  {
    if !available then AuthCall(None, AuthError(NotConfiguredMessage))
    else AuthCall(Some(kind), backend)
  }

  /** What `signOut` did: whether it reached the backend, and the snapshot
      once the auth listener has seen the outcome. */
  datatype SignOutStep = SignOutStep(called: bool, after: Snapshot)

  /** `signOut`, together with the auth listener's answer to it. Without a
      configured backend it returns at once and nothing changes. Otherwise it
      calls the backend; when the backend ends the session (`ended`), the
      listener clears the user. The storage mode is never touched, so a
      `cloud` preference survives signing out. */
  function SignOut(a: Snapshot, ended: bool): (r: SignOutStep)
    ensures r.called <==> a.available
    ensures r.after.storageMode == a.storageMode && r.after.available == a.available
    ensures r.after.user.None? <==> a.user.None? || (a.available && ended)
    ensures r.after.user.Some? ==> r.after.user == a.user
    // once the session has ended, the vault's store is the local one
    ensures ended ==> !CloudActive(r.after)
  {
    if !a.available then SignOutStep(false, a)
    else if ended then SignOutStep(true, a.(user := None))
    else SignOutStep(true, a)
  }
}
