/** Adding, updating and deleting an entry (src/hooks/usePasswordOperations.ts).
    Each operation is gated by the same condition: while the cloud is active
    the backend is asked first, and a backend failure ends the operation with
    an error toast before the local vault is touched. Otherwise the matching
    reducer action is dispatched, followed by a success toast. */
module PasswordOperations {
  import opened Types
  import opened Encryption
  import Auth
  import AppReducer
  import Toasts
  import Persistence

  /** The request sent to the backend's `passwords` table. */
  datatype RemoteCall =
    | Insert(row: Persistence.RemoteRow)
    | Update(id: string, userId: string, website: string, email: string,
             encryptedPassword: string, updatedAt: Timestamp)
    | Delete(id: string, userId: string)

  /** What the environment supplies: a fresh id and the current time (random
      and the clock in the source), an id for the toast, and whether the
      backend call succeeded (ignored when no call is made). */
  datatype Env = Env(newId: string, now: Timestamp, toastId: string, remoteOk: bool)

  /** The effect of an operation: the backend request it made, if any, and the
      actions it dispatched, in order. */
  datatype Step = Step(call: Option<RemoteCall>, actions: seq<AppReducer.Action>)

  const AddFailedMessage := "Failed to save password to cloud"
  const AddedMessage := "Password added successfully!"
  const UpdateFailedMessage := "Failed to update password in cloud"
  const UpdatedMessage := "Password updated successfully!"
  const DeleteFailedMessage := "Failed to delete password from cloud"
  const DeletedMessage := "Password deleted successfully"

  /** The user id an entry is stamped with: `user?.id`. */
  function UserIdOf(auth: Auth.Snapshot): Option<string> {
    match auth.user
    case Some(u) => Some(u.id)
    case None => None
  }

  /** The entry `addPassword` creates from the form's fields. */
  function NewEntry(data: EntryFields, auth: Auth.Snapshot, env: Env): (e: PasswordEntry)
    ensures e.id == env.newId
    ensures e.website == data.website && e.email == data.email && e.password == data.password
    ensures e.createdAt == env.now && e.updatedAt == env.now
    ensures e.userId.Some? <==> auth.user.Some?
    ensures auth.user.Some? ==> e.userId.value == auth.user.value.id
  {
    PasswordEntry(env.newId, data.website, data.email, data.password, env.now, env.now, UserIdOf(auth))
  }

  /** The common shape of the three operations: `request` is sent when the
      cloud is active; if it fails, only the failure toast follows. */
  function Gate(auth: Auth.Snapshot, env: Env, request: RemoteCall, failed: string,
                action: AppReducer.Action, succeeded: string): (st: Step)
    ensures st.call.Some? <==> Auth.CloudActive(auth)
    ensures st.call.Some? ==> st.call.value == request
    ensures Auth.CloudActive(auth) && !env.remoteOk ==>
      st.actions == [Toasts.ShowToast(env.toastId, failed, Error)]
    ensures !(Auth.CloudActive(auth) && !env.remoteOk) ==>
      st.actions == [action, Toasts.ShowToast(env.toastId, succeeded, Success)]
  {
    if Auth.CloudActive(auth) && !env.remoteOk then
      Step(Some(request), [Toasts.ShowToast(env.toastId, failed, Error)])
    else
      var call := if Auth.CloudActive(auth) then Some(request) else None;
      Step(call, [action, Toasts.ShowToast(env.toastId, succeeded, Success)])
  }

  /** `addPassword`. */
  function AddPassword(data: EntryFields, auth: Auth.Snapshot, env: Env, codec: Codec): (st: Step)
    ensures st.call.Some? <==> Auth.CloudActive(auth)
    ensures st.call.Some? ==>
      && st.call.value.Insert?
      && st.call.value.row.id == env.newId
      && Some(st.call.value.row.userId) == UserIdOf(auth)
      && st.call.value.row.website == data.website
      && st.call.value.row.email == data.email
      && st.call.value.row.encryptedPassword == codec.sealSecret(data.password)
      && st.call.value.row.createdAt == env.now == st.call.value.row.updatedAt
    ensures Auth.CloudActive(auth) && !env.remoteOk ==>
      st.actions == [Toasts.ShowToast(env.toastId, AddFailedMessage, Error)]
    ensures !(Auth.CloudActive(auth) && !env.remoteOk) ==>
      && |st.actions| == 2
      && st.actions[0] == AppReducer.AddPassword(NewEntry(data, auth, env))
      && st.actions[1] == Toasts.ShowToast(env.toastId, AddedMessage, Success)
  {
    var e := NewEntry(data, auth, env);
    var userId := match auth.user case Some(u) => u.id case None => "";
    var row := Persistence.RemoteRow(e.id, userId, e.website, e.email, codec.sealSecret(e.password), env.now, env.now);
    Gate(auth, env, Insert(row), AddFailedMessage, AppReducer.AddPassword(e), AddedMessage)
  }

  /** The entry `updatePassword` dispatches: the supplied one, re-stamped. */
  function Restamped(e: PasswordEntry, now: Timestamp): (r: PasswordEntry)
    ensures r.updatedAt == now
    ensures r.id == e.id && r.website == e.website && r.email == e.email && r.password == e.password
    ensures r.createdAt == e.createdAt && r.userId == e.userId
  {
    e.(updatedAt := now)
  }

  /** `updatePassword`. */
  function UpdatePassword(e: PasswordEntry, auth: Auth.Snapshot, env: Env, codec: Codec): (st: Step)
    ensures st.call.Some? <==> Auth.CloudActive(auth)
    ensures st.call.Some? ==>
      && st.call.value.Update?
      && st.call.value.id == e.id
      && Some(st.call.value.userId) == UserIdOf(auth)
      && st.call.value.website == e.website
      && st.call.value.email == e.email
      && st.call.value.encryptedPassword == codec.sealSecret(e.password)
      && st.call.value.updatedAt == env.now
    ensures Auth.CloudActive(auth) && !env.remoteOk ==>
      st.actions == [Toasts.ShowToast(env.toastId, UpdateFailedMessage, Error)]
    ensures !(Auth.CloudActive(auth) && !env.remoteOk) ==>
      && |st.actions| == 2
      && st.actions[0] == AppReducer.UpdatePassword(Restamped(e, env.now))
      && st.actions[1] == Toasts.ShowToast(env.toastId, UpdatedMessage, Success)
  {
    var userId := match auth.user case Some(u) => u.id case None => "";
    var request := Update(e.id, userId, e.website, e.email, codec.sealSecret(e.password), env.now);
    Gate(auth, env, request, UpdateFailedMessage, AppReducer.UpdatePassword(Restamped(e, env.now)), UpdatedMessage)
  }

  /** `deletePassword`. */
  function DeletePassword(id: string, auth: Auth.Snapshot, env: Env): (st: Step)
    ensures st.call.Some? <==> Auth.CloudActive(auth)
    ensures st.call.Some? ==>
      && st.call.value.Delete?
      && st.call.value.id == id
      && Some(st.call.value.userId) == UserIdOf(auth)
    ensures Auth.CloudActive(auth) && !env.remoteOk ==>
      st.actions == [Toasts.ShowToast(env.toastId, DeleteFailedMessage, Error)]
    ensures !(Auth.CloudActive(auth) && !env.remoteOk) ==>
      && |st.actions| == 2
      && st.actions[0] == AppReducer.DeletePassword(id)
      && st.actions[1] == Toasts.ShowToast(env.toastId, DeletedMessage, Success)
  {
    var userId := match auth.user case Some(u) => u.id case None => "";
    Gate(auth, env, Delete(id, userId), DeleteFailedMessage, AppReducer.DeletePassword(id), DeletedMessage)
  }

  /** One of the three operations, with its argument. */
  datatype Operation = Add(data: EntryFields) | Change(entry: PasswordEntry) | Remove(id: string)

  function Run(op: Operation, auth: Auth.Snapshot, env: Env, codec: Codec): Step {
    match op
    case Add(data) => AddPassword(data, auth, env, codec)
    case Change(e) => UpdatePassword(e, auth, env, codec)
    case Remove(id) => DeletePassword(id, auth, env)
  }

  /** The reducer action an operation stands for. */
  function IntendedAction(op: Operation, auth: Auth.Snapshot, env: Env): AppReducer.Action {
    match op
    case Add(data) => AppReducer.AddPassword(NewEntry(data, auth, env))
    case Change(e) => AppReducer.UpdatePassword(Restamped(e, env.now))
    case Remove(id) => AppReducer.DeletePassword(id)
  }

  /** A failed backend call leaves the vault exactly as it was; the only change
      to the state is one error toast. Holds for all three operations. */
  lemma FailedRemoteKeepsVault(op: Operation, s: AppReducer.AppState, auth: Auth.Snapshot, env: Env, codec: Codec)
    requires Auth.CloudActive(auth) && !env.remoteOk
    ensures var st := Run(op, auth, env, codec);
      var r := AppReducer.Apply(s, st.actions);
      && st.call.Some?
      && r.passwords == s.passwords
      && r == s.(toasts := r.toasts)
      && |r.toasts| == |s.toasts| + 1
      && r.toasts[|s.toasts|].kind == Error
  {
  }

  /** Whenever the backend is not in the way (no cloud, or the call
      succeeded), the operation's reducer action is applied to the vault. */
  lemma OperationAppliesAction(op: Operation, s: AppReducer.AppState, auth: Auth.Snapshot, env: Env, codec: Codec)
    requires !(Auth.CloudActive(auth) && !env.remoteOk)
    ensures var r := AppReducer.Apply(s, Run(op, auth, env, codec).actions);
      r.passwords == AppReducer.Reduce(s, IntendedAction(op, auth, env)).passwords
  {
  }

  /** Every operation, whatever the backend answers, changes nothing of the
      state but the vault and the toasts, and reports exactly one toast after
      the existing ones. */
  lemma {:induction false} OperationTouchesOnlyVaultAndToasts(op: Operation, s: AppReducer.AppState,
                                                              auth: Auth.Snapshot, env: Env, codec: Codec)
    ensures var r := AppReducer.Apply(s, Run(op, auth, env, codec).actions);
      && r == s.(passwords := r.passwords, toasts := r.toasts)
      && |r.toasts| == |s.toasts| + 1
      && r.toasts[..|s.toasts|] == s.toasts
  {
    var acts := Run(op, auth, env, codec).actions;
    if Auth.CloudActive(auth) && !env.remoteOk {
      assert AppReducer.Apply(s, acts) == AppReducer.Reduce(s, acts[0]);
    } else {
      var mid := AppReducer.Reduce(s, acts[0]);
      assert mid == s.(passwords := mid.passwords);
      assert AppReducer.Apply(s, acts) == AppReducer.Reduce(mid, acts[1]);
    }
  }
}
