/** Choosing the storage mode (src/components/StorageModeModal.tsx). The
    screen is the application state together with the current mode and the
    browser store the mode is persisted in. */
module StorageModeModal {
  import opened Types
  import AppReducer
  import Auth
  import Persistence

  datatype Screen = Screen(app: AppReducer.AppState, mode: StorageMode, store: Storage)

  /** `handleClose`. */
  function Close(sc: Screen): (r: Screen)
    ensures !r.app.isStorageModeModalOpen
    ensures r == sc.(app := r.app) && r.app == sc.app.(isStorageModeModalOpen := false)
  {
    sc.(app := AppReducer.Reduce(sc.app, AppReducer.SetStorageModeModalOpen(false)))
  }

  /** `handleModeSelect(choice)`. */
  function SelectMode(sc: Screen, choice: StorageMode, available: bool): (r: Screen)
    // picking cloud without a backend is ignored entirely
    ensures choice == Cloud && !available ==> r == sc
    // any other pick is adopted, persisted, and closes the modal
    ensures !(choice == Cloud && !available) ==>
      && r.mode == choice
      && Auth.StorageModeKey in r.store && r.store[Auth.StorageModeKey] == Auth.ModeName(choice)
      && !r.app.isStorageModeModalOpen
    // the auth modal opens exactly for an accepted cloud pick
    ensures choice == Local ==> r.app.isAuthModalOpen == sc.app.isAuthModalOpen
    ensures choice == Cloud && available ==> r.app.isAuthModalOpen
    // nothing else in the application state changes
    ensures r.app == sc.app.(isAuthModalOpen := r.app.isAuthModalOpen,
                             isStorageModeModalOpen := r.app.isStorageModeModalOpen)
    // the only key ever written is the mode preference
    ensures forall k :: k != Auth.StorageModeKey ==> (k in r.store <==> k in sc.store)
    ensures forall k :: k in sc.store && k != Auth.StorageModeKey ==> r.store[k] == sc.store[k]
  {
    if choice == Cloud && !available then sc
    else
      var app := if choice == Cloud then AppReducer.Reduce(sc.app, AppReducer.SetAuthModalOpen(true)) else sc.app;
      var (mode, store) := Auth.SetStorageMode(choice, sc.store);
      Close(Screen(app, mode, store))
  }

  /** `cloud` is reachable only with a backend: a start-up resolution followed
      by any sequence of selections never yields `cloud` without one. */
  lemma {:induction false} SelectionsKeepModeAllowed(sc: Screen, choices: seq<StorageMode>, available: bool)
    requires Auth.ModeAllowed(sc.mode, available)
    ensures Auth.ModeAllowed(SelectAll(sc, choices, available).mode, available)
    decreases |choices|
  {
    if choices != [] {
      SelectionsKeepModeAllowed(SelectMode(sc, choices[0], available), choices[1..], available);
    }
  }

  /** A run of selections, one after the other. */
  function SelectAll(sc: Screen, choices: seq<StorageMode>, available: bool): Screen
    decreases |choices|
  {
    if choices == [] then sc
    else SelectAll(SelectMode(sc, choices[0], available), choices[1..], available)
  }

  /** `handleModeSelect` itself writes only the mode key: after any sequence
      of selections the primary and backup entries are as they were. The save
      effect that re-runs on the new mode is a separate step
      (`Persistence.SavePasswords`). */
  lemma {:induction false} SelectionsKeepVaultBlobs(sc: Screen, choices: seq<StorageMode>, available: bool)
    ensures var r := SelectAll(sc, choices, available);
      && Persistence.SameAt(sc.store, r.store, Persistence.PasswordsKey)
      && Persistence.SameAt(sc.store, r.store, Persistence.BackupKey)
    decreases |choices|
  {
    if choices != [] {
      SelectionsKeepVaultBlobs(SelectMode(sc, choices[0], available), choices[1..], available);
    }
  }
}
