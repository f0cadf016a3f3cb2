# Passo vault model

A Dafny model of the client-side core of Passo, a browser password manager.
The vault is an ordered list of credential entries held in a React reducer.
It is persisted either in the browser's `localStorage` (mode `local`) or in
a cloud backend, with a local encrypted backup kept alongside (mode `cloud`).

The model covers:

- **Types** mirrors the record shapes: entries, toasts, users, storage modes,
  and `localStorage` as a `map<string, string>`.
- **Seqs** holds the order-preserving filter (`Array.prototype.filter`) and the
  subsequence relation.
- **AppReducer** is `appReducer`: a pure function over an immutable state
  record. Each action changes only its own field.
- **Encryption** stands for `encryptData`/`decryptData`. The helpers are passed
  in as a `Codec` value of total functions. Their round trip is only ever a
  hypothesis of a lemma.
- **Persistence** covers the two effects of `AppProvider` as pure decisions.
  The load picks the backend, or the `passo-passwords` key, or dispatches
  nothing. The save writes `passo-passwords-backup` while the cloud is active
  and `passo-passwords` otherwise, and it writes nothing for an empty vault.
- **PasswordOperations** covers `addPassword`, `updatePassword` and
  `deletePassword` as guarded steps. Each step returns the backend request it
  makes and the reducer actions it dispatches.
- **Toasts** covers `showToast`.
- **Auth** covers resolving the storage mode at start-up, `setStorageMode`, and
  the availability guards of `signUp`, `signIn` and `signOut`.
- **StorageModeModal**, **PasswordModal**, **AuthModal** and **Search** are the
  dialogs' handlers and the dashboard filter, all as transitions on immutable
  records.

Nondeterminism and I/O become parameters. These are the fresh entry id, the
current time, toast ids, the backend's answers (`Remote`, `AuthResult`,
`Env.remoteOk`), whether a `localStorage` write succeeds (`writeOk`) and the codec.

Two behaviours of the code are worth stating up front:

- A local load that finds no blob, or an unreadable one, dispatches nothing.
- The save runs whenever the list, the storage mode, the user or the backend's availability changes, and skips the empty list (see Findings).

## Model

| member | source | states |
|---|---|---|
| Types.ReadNonEmpty | src/context/AppContext.tsx:123-124 | a stored value counts only when the key is present and its value is non-empty, as the truthiness test `if (stored)` does |
| Seqs.Filter | src/components/Dashboard.tsx:15-19 | the filter result is sound (only elements satisfying the predicate), complete (every such element), keeps each kept element's multiplicity, is an order-preserving subsequence, and is no longer than the input |
| AppReducer.ReplaceById | src/context/AppContext.tsx:54-60 | UPDATE_PASSWORD keeps length and order, replaces exactly the entries whose id matches the payload, leaves every other entry identical, and is the identity when the id is absent |
| AppReducer.RemoveById | src/context/AppContext.tsx:61-65 | DELETE_PASSWORD leaves no entry with that id, keeps every other entry with its multiplicity in relative order, and never increases the length |
| AppReducer.RemoveToastById | src/context/AppContext.tsx:68-72 | REMOVE_TOAST leaves no toast with that id, keeps every other toast with its multiplicity in relative order, and never grows the list |
| AppReducer.Reduce | src/context/AppContext.tsx:48-88 | an unrecognised action returns the state unchanged; each field changes only under its own action; ADD_PASSWORD and ADD_TOAST append at the end, keeping the earlier elements; the setters store their payload |
| AppReducer.Apply | src/hooks/usePasswordOperations.ts:44-45 | dispatching actions none of which touch the vault leaves `passwords` unchanged; dispatching only toasts changes nothing but the toast list, which grows by exactly those toasts in order |
| Auth.ResolveSavedMode | src/context/AuthContext.tsx:22-30 | a saved `local` is adopted; `cloud` results exactly when `cloud` was saved and the backend is available; anything else, missing or empty leaves the default `local` |
| Auth.SetStorageMode | src/context/AuthContext.tsx:54-57 | the mode becomes current and exactly its name is stored under `passo-storage-mode`; no other key changes |
| Auth.PersistedModeIsRestored | src/context/AuthContext.tsx:27-30 | a mode allowed when persisted by `setStorageMode` is the one the start-up read adopts |
| Auth.RequestAuth | src/context/AuthContext.tsx:59-71 | without a backend, sign-up and sign-in return "Cloud storage is not configured" and make no backend request; with one, they make the requested kind of request and pass its answer through |
| Auth.SignOut | src/context/AuthContext.tsx:73-76 | sign-out reaches the backend exactly when it is configured; the user is cleared exactly when the backend ends the session; the storage mode and availability never change, and once the session has ended the cloud is no longer the vault's store |
| Persistence.DecodeRows | src/context/AppContext.tsx:107-115 | cloud rows become entries field by field with only the secret decrypted; one undecryptable row makes the whole load fail |
| Persistence.LoadPasswords | src/context/AppContext.tsx:96-132 | the cloud path is taken exactly under the three-way condition and dispatches nothing on a backend error; the local path dispatches nothing for a missing or empty key or an unreadable blob, and otherwise dispatches the opened blob |
| Persistence.AfterLoad | src/context/AppContext.tsx:117-131 | a load that dispatches nothing leaves the in-memory state unchanged; otherwise only `passwords` is replaced |
| Persistence.SavePasswords | src/context/AppContext.tsx:150-175 | an empty vault, a sealing failure or a failed write leaves the store unchanged; otherwise the sealed vault goes only to the backup key when the cloud is active and only to the primary key otherwise; no other key changes |
| Persistence.LocalSaveThenLoad | src/context/AppContext.tsx:121-128 | in local mode a non-empty vault whose save succeeded is loaded back unchanged, given a codec that round-trips it |
| Persistence.CloudSaveKeepsBackup | src/context/AppContext.tsx:154-161 | while the cloud is active a save whose write succeeds leaves a backup blob that opens to the current vault, and the primary blob is untouched |
| Persistence.LocalLoadIgnoresBackup | src/context/AppContext.tsx:121-132 | the local load outcome does not depend on the backup blob |
| Persistence.DeletedLastEntryReturnsOnReload | src/context/AppContext.tsx:152 | as written, deleting the only entry and reloading dispatches that entry again |
| Persistence.SaveHydrated | src/context/AppContext.tsx:150-175 | corrected save: nothing is written before the vault has loaded or when sealing or the write fails; otherwise every vault is written, the empty one included, with the same key routing |
| Persistence.HydratedSaveThenLoad | src/context/AppContext.tsx:150-175 | with the corrected save, a local load returns exactly the last successfully saved vault, the empty one included |
| Persistence.DeletedLastEntryStaysDeleted | src/context/AppContext.tsx:152 | with the corrected save, deleting the only entry and reloading gives an empty vault |
| Persistence.SignOutCopiesCloudVaultToLocal | src/context/AppContext.tsx:121-171 | after signing out of cloud mode on a device with no local vault, the load on the local path dispatches nothing, so the cloud entries stay in memory and the next save seals them under the local key |
| Toasts.ShowToast | src/hooks/useToast.ts:7-11 | the toast carries the given id, message and kind and the default 3000 ms duration |
| PasswordOperations.NewEntry | src/hooks/usePasswordOperations.ts:14-21 | a new entry has the fresh id, the form's three fields, `createdAt == updatedAt == now`, and the current user's id exactly when a user is signed in |
| PasswordOperations.Gate | src/hooks/usePasswordOperations.ts:23-45 | a backend request is made exactly under the three-way cloud condition; a failed request yields only an error toast; otherwise the reducer action and then a success toast are dispatched |
| PasswordOperations.AddPassword | src/hooks/usePasswordOperations.ts:13-46 | the insert sends only the password through the codec and the website and email as given; a backend error dispatches only the failure toast; otherwise ADD_PASSWORD with the new entry and the success toast |
| PasswordOperations.Restamped | src/hooks/usePasswordOperations.ts:49-50 | update sets `updatedAt` to now and keeps every other field |
| PasswordOperations.UpdatePassword | src/hooks/usePasswordOperations.ts:48-74 | the update request targets the entry's id and the user's id and encrypts only the password; failure dispatches only the error toast; otherwise UPDATE_PASSWORD with the re-stamped entry |
| PasswordOperations.DeletePassword | src/hooks/usePasswordOperations.ts:76-94 | the delete request targets the id and the user's id; failure dispatches only the error toast; otherwise DELETE_PASSWORD and the success toast |
| PasswordOperations.FailedRemoteKeepsVault | src/hooks/usePasswordOperations.ts:23-41 | for all three operations, a failed backend call leaves the vault and every other field unchanged and adds exactly one error toast |
| PasswordOperations.OperationTouchesOnlyVaultAndToasts | src/hooks/usePasswordOperations.ts:23-45 | whatever the backend answers, an operation changes nothing but the vault and the toasts, and appends exactly one toast after the existing ones |
| PasswordOperations.OperationAppliesAction | src/hooks/usePasswordOperations.ts:23-45 | off the cloud path, or after a successful call, the vault ends as the operation's reducer action makes it |
| Search.LowerChar | src/components/Dashboard.tsx:14 | upper-case ASCII letters map to their lower-case letters and every other character is kept |
| Search.Lower | src/components/Dashboard.tsx:14 | lower-casing keeps the length and lowers each character in place |
| Search.IncludesIffOccurs | src/components/Dashboard.tsx:17-18 | `includes` holds exactly when the query occurs at some position of the string |
| Search.FilterPasswords | src/components/Dashboard.tsx:11-20 | an empty query returns the whole vault; otherwise the result is sound and complete for the case-insensitive website-or-email match, keeps each matching entry's multiplicity, and is an order-preserving subsequence no longer than the vault |
| Search.CaseInsensitive | src/components/Dashboard.tsx:14 | a query and its lower-cased form select the same entries |
| Search.EmptyQueryShortcutAgrees | src/components/Dashboard.tsx:12 | the empty-query shortcut returns what the filter would return, since every string includes the empty query |
| Search.Render | src/components/Dashboard.tsx:27-82 | the welcome screen shows exactly when the vault is empty; otherwise the listing shows the filtered entries and the vault's size, or the no-match message when the filter is empty |
| StorageModeModal.Close | src/components/StorageModeModal.tsx:10-12 | closing clears only the storage-mode modal flag |
| StorageModeModal.SelectMode | src/components/StorageModeModal.tsx:14-25 | picking `cloud` without a backend changes nothing; any other pick sets and persists the mode and closes the modal; the auth modal opens only for an accepted `cloud` pick; only the mode key is written |
| StorageModeModal.SelectionsKeepModeAllowed | src/components/StorageModeModal.tsx:14-25 | no sequence of selections reaches `cloud` without a backend |
| StorageModeModal.SelectionsKeepVaultBlobs | src/components/StorageModeModal.tsx:14-25 | `handleModeSelect` itself writes only the mode key: any number of selections leave the primary and backup vault blobs as they were |
| PasswordModal.FormFor | src/components/PasswordModal.tsx:19-29 | the form shows the edited entry's three fields, or three empty strings when adding |
| PasswordModal.Merge | src/components/PasswordModal.tsx:38-42 | the merged entry keeps the edited entry's id, timestamps and owner and takes website, email and password from the form |
| PasswordModal.MergeUneditedForm | src/components/PasswordModal.tsx:19-42 | submitting an edit form nobody changed gives the edited entry back |
| PasswordModal.SubmitRequest | src/components/PasswordModal.tsx:34-46 | a form with an empty field requests nothing; otherwise an edit requests an update of the merged entry and an add passes exactly the form's fields |
| PasswordModal.Close | src/components/PasswordModal.tsx:51-56 | closing clears the modal-open flag and the edited entry, empties the form and hides the generator |
| PasswordModal.PasswordGenerated | src/components/PasswordModal.tsx:58-61 | a generated password replaces only the form's password field and hides the generator |
| PasswordModal.Submit | src/components/PasswordModal.tsx:31-49 | an incomplete form changes nothing and makes no call; a complete one makes the add or update operation's call, always closes the dialog and hides the generator, appends exactly one toast and changes no other field of the application state but the vault; when the backend is not in the way an add appends the new entry and an edit replaces the entry with the edited id by the merged, re-stamped one; a failed backend call leaves the vault unchanged |
| PasswordModal.RunAndClose | src/components/PasswordModal.tsx:43-48 | running an operation from the dialog makes that operation's call, leaves the vault alone when the call fails and otherwise as the operation's reducer action makes it, appends one toast, and closes the dialog without touching any other field |
| PasswordModal.EditReplacesEditedEntry | src/components/PasswordModal.tsx:38-43 | an accepted edit replaces the edited entry in place with one keeping its id, creation time and owner, taking the form's fields and the new time |
| PasswordModal.FailedSubmitKeepsVault | src/components/PasswordModal.tsx:43-48 | a failed backend call during submit leaves the vault unchanged yet still closes the dialog |
| AuthModal.Validate | src/components/AuthModal.tsx:24-34 | in sign-up mode a mismatched confirmation is reported first; then a password under 6 characters; a form passes exactly when neither applies |
| AuthModal.SignInIgnoresConfirmation | src/components/AuthModal.tsx:24 | in sign-in mode the confirmation field does not affect validation |
| AuthModal.LengthBoundary | src/components/AuthModal.tsx:30 | a 6-character password passes and a 5-character one is too short |
| AuthModal.Close | src/components/AuthModal.tsx:59-64 | closing clears the auth-modal flag, empties the form and turns sign-up and password display off |
| AuthModal.Submit | src/components/AuthModal.tsx:20-57 | loading is off after every exit; exactly one toast is shown; a rejected form makes no request; an accepted one reaches the backend exactly when it is configured; a backend refusal is shown with the backend's own message; only success closes the dialog and resets the form, the sign-up flag and password display; nothing but the toasts and the dialog's visibility changes in the application state |

## Left out

- `src/utils/encryption.ts` is not part of this model. The codec is a parameter, so the round trip and tamper detection of the blob are hypotheses, not results.
- The cloud backend: queries and sessions. Only the success or failure of each call is an input; of `onAuthStateChange` only its answer to a sign-out is modelled (`Auth.SignOut`). The backend's own filtering by `user_id` and its newest-first ordering are taken as given in the rows it returns.
- The session bootstrap and the `loading` flag of the auth context (src/context/AuthContext.tsx:32-52): asynchronous I/O.
- Theme loading and saving (src/context/AppContext.tsx:139-147, 178-181): the `matchMedia` query and the DOM class toggle are browser I/O and presentation.
- Toast expiry through `setTimeout` and `removeToast` (src/hooks/useToast.ts:13-20): timing.
- Random ids and `new Date()`: these are parameters. ISO date strings and their parsing are reduced to integer timestamps.
- React effect scheduling, `await` ordering and fire-and-forget saves: concurrency and rendering. Each handler is one atomic step.
- An exception thrown by `encryptData` inside the backend call's `try` has the same outcome as a backend error. It is folded into `Env.remoteOk`.
- Password generation, strength scoring and the strength bar (src/components/PasswordGenerator.tsx): not among the vault's logic.
- Show/hide-password toggles, the PasswordCard delete confirmation and clipboard copy, the Header and ToastContainer: presentation and browser I/O.
- Search.LowerChar: lower-cases ASCII letters only. JavaScript's `toLowerCase` follows Unicode case mapping, which can also change a string's length.
- AuthModal.Validate: counts the password's length in Unicode code points, where JavaScript counts UTF-16 code units.
- StorageModeModal.SelectionsKeepVaultBlobs: covers `handleModeSelect` alone. The save effect (src/context/AppContext.tsx:175) re-runs when the mode, the user or the backend's availability changes, and that save does write a vault blob; `Persistence.SignOutCopiesCloudVaultToLocal` shows one such write.
- Auth.SignOut: the `signOut` call's own error result is not inspected by the code; whether the session ended is the input `ended`.
- Persistence.LoadPasswords: the local blob's dates pass through `JSON.stringify`/`JSON.parse` inside the opaque codec. The model does not track their conversion to strings.

## Findings

| source | as written | input that shows it | evidently intended | confidence | as-written member | corrected member |
|---|---|---|---|---|---|---|
| src/context/AppContext.tsx:152 | the save effect returns early whenever the vault is empty, so deleting the last entry never reaches storage | local mode; the vault `[e]` has been saved; delete `e`; reload | skip the write only until the stored vault has been loaded, then write every vault including the empty one | medium, not executed | Persistence.DeletedLastEntryReturnsOnReload | Persistence.DeletedLastEntryStaysDeleted |
