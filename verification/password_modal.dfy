/** The add/edit dialog (src/components/PasswordModal.tsx): a form of three
    fields, the entry being edited (if any), and whether the generator panel
    is shown. Submitting validates the form, hands it to the add or update
    operation, and closes the dialog. */
module PasswordModal {
  import opened Types
  import opened Encryption
  import Auth
  import AppReducer
  import PasswordOperations

  datatype Dialog = Dialog(app: AppReducer.AppState, form: EntryFields, showGenerator: bool)

  /** The form contents shown for the entry being edited (the effect on
      `editingPassword`): its fields, or an empty form when adding. */
  function FormFor(editing: Option<PasswordEntry>): (f: EntryFields)
    ensures editing.None? ==> f == EmptyFields
    ensures editing.Some? ==>
      f.website == editing.value.website && f.email == editing.value.email
      && f.password == editing.value.password
  {
    match editing
    case None => EmptyFields
    case Some(e) => EntryFields(e.website, e.email, e.password)
  }

  /** A form passes when none of its three fields is empty. */
  predicate Complete(f: EntryFields) {
    f.website != "" && f.email != "" && f.password != ""
  }

  /** `{ ...editingPassword, ...formData }`: the edited entry with the form's
      three fields. */
  function Merge(editing: PasswordEntry, f: EntryFields): (e: PasswordEntry)
    ensures e.id == editing.id && e.createdAt == editing.createdAt && e.updatedAt == editing.updatedAt
    ensures e.userId == editing.userId
    ensures e.website == f.website && e.email == f.email && e.password == f.password
  {
    editing.(website := f.website, email := f.email, password := f.password)
  }

  /** Merging the form the effect filled in from an entry gives that entry
      back unchanged. */
  lemma MergeUneditedForm(e: PasswordEntry)
    ensures Merge(e, FormFor(Some(e))) == e
  {
  }

  /** Which operation a submit asks for. */
  datatype Request = NoRequest | RequestAdd(fields: EntryFields) | RequestUpdate(entry: PasswordEntry)

  function SubmitRequest(f: EntryFields, editing: Option<PasswordEntry>): (q: Request)
    ensures !Complete(f) ==> q == NoRequest
    ensures Complete(f) && editing.None? ==> q == RequestAdd(f)
    ensures Complete(f) && editing.Some? ==> q.RequestUpdate? && q.entry == Merge(editing.value, f)
  {
    if !Complete(f) then NoRequest
    else match editing
      case Some(e) => RequestUpdate(Merge(e, f))
      case None => RequestAdd(f)
  }

  /** `handleClose`. */
  function Close(d: Dialog): (r: Dialog)
    ensures !r.app.isModalOpen && r.app.editingPassword.None?
    ensures r.form == EmptyFields && !r.showGenerator
    ensures r.app == d.app.(isModalOpen := false, editingPassword := None)
  {
    var app := AppReducer.Apply(d.app, [AppReducer.SetModalOpen(false), AppReducer.SetEditingPassword(None)]);
    assert app == AppReducer.Reduce(AppReducer.Reduce(d.app, AppReducer.SetModalOpen(false)), AppReducer.SetEditingPassword(None));
    Dialog(app, EmptyFields, false)
  }

  /** `handlePasswordGenerated`. */
  function PasswordGenerated(d: Dialog, password: string): (r: Dialog)
    ensures r.form.password == password
    ensures r.form.website == d.form.website && r.form.email == d.form.email
    ensures r.app == d.app && !r.showGenerator
  {
    d.(form := d.form.(password := password), showGenerator := false)
  }

  /** The result of `handleSubmit`: the dialog afterwards and the backend call
      the operation made. */
  datatype Submitted = Submitted(dialog: Dialog, call: Option<PasswordOperations.RemoteCall>)

  /** Runs one operation on the dialog's state and closes the dialog. */
  function RunAndClose(d: Dialog, op: PasswordOperations.Operation, auth: Auth.Snapshot,
                       env: PasswordOperations.Env, codec: Codec): (r: Submitted)
    ensures r.call == PasswordOperations.Run(op, auth, env, codec).call
    ensures Auth.CloudActive(auth) && !env.remoteOk ==> r.dialog.app.passwords == d.app.passwords
    ensures !(Auth.CloudActive(auth) && !env.remoteOk) ==>
      r.dialog.app.passwords == AppReducer.Reduce(d.app, PasswordOperations.IntendedAction(op, auth, env)).passwords
    ensures r.dialog.form == EmptyFields && !r.dialog.showGenerator
    ensures r.dialog.app == d.app.(passwords := r.dialog.app.passwords, toasts := r.dialog.app.toasts,
                                   isModalOpen := false, editingPassword := None)
    ensures |r.dialog.app.toasts| == |d.app.toasts| + 1
    ensures r.dialog.app.toasts[..|d.app.toasts|] == d.app.toasts
  {
    var st := PasswordOperations.Run(op, auth, env, codec);
    PasswordOperations.OperationTouchesOnlyVaultAndToasts(op, d.app, auth, env, codec);
    if Auth.CloudActive(auth) && !env.remoteOk then
      PasswordOperations.FailedRemoteKeepsVault(op, d.app, auth, env, codec);
      Submitted(Close(d.(app := AppReducer.Apply(d.app, st.actions))), st.call)
    else
      PasswordOperations.OperationAppliesAction(op, d.app, auth, env, codec);
      Submitted(Close(d.(app := AppReducer.Apply(d.app, st.actions))), st.call)
  }

  /** `handleSubmit`: an incomplete form is ignored; otherwise the add or
      update operation runs and the dialog closes, whatever the operation's
      outcome. */
  function Submit(d: Dialog, auth: Auth.Snapshot, env: PasswordOperations.Env, codec: Codec): (r: Submitted)
    ensures !Complete(d.form) ==> r == Submitted(d, None)
    ensures Complete(d.form) ==> !r.dialog.app.isModalOpen && r.dialog.form == EmptyFields
    // a submitted form closes the dialog, adds one toast, and changes nothing
    // else of the application state beyond the vault
    ensures Complete(d.form) ==>
      && r.dialog.app == d.app.(passwords := r.dialog.app.passwords, toasts := r.dialog.app.toasts,
                                isModalOpen := false, editingPassword := None)
      && !r.dialog.showGenerator
      && |r.dialog.app.toasts| == |d.app.toasts| + 1
      && r.dialog.app.toasts[..|d.app.toasts|] == d.app.toasts
    ensures Complete(d.form) && d.app.editingPassword.None? ==>
      r.call == PasswordOperations.AddPassword(d.form, auth, env, codec).call
    ensures Complete(d.form) && d.app.editingPassword.Some? ==>
      r.call == PasswordOperations.UpdatePassword(Merge(d.app.editingPassword.value, d.form), auth, env, codec).call
    // when the backend is not in the way, the vault ends as the operation left it
    ensures Complete(d.form) && d.app.editingPassword.None? && !(Auth.CloudActive(auth) && !env.remoteOk) ==>
      r.dialog.app.passwords == d.app.passwords + [PasswordOperations.NewEntry(d.form, auth, env)]
    ensures Complete(d.form) && d.app.editingPassword.Some? && !(Auth.CloudActive(auth) && !env.remoteOk) ==>
      r.dialog.app.passwords == AppReducer.ReplaceById(d.app.passwords,
        PasswordOperations.Restamped(Merge(d.app.editingPassword.value, d.form), env.now))
    // a failed backend call leaves the vault as it was
    ensures Auth.CloudActive(auth) && !env.remoteOk ==> r.dialog.app.passwords == d.app.passwords
  {
    match SubmitRequest(d.form, d.app.editingPassword)
    case NoRequest => Submitted(d, None)
    case RequestAdd(f) => RunAndClose(d, PasswordOperations.Add(f), auth, env, codec)
    case RequestUpdate(e) => RunAndClose(d, PasswordOperations.Change(e), auth, env, codec)
  }

  /** Saving an edit when the backend is not in the way replaces the edited
      entry (found by id) with one that keeps its id, creation time and owner,
      takes the form's fields, and carries the new time. */
  lemma EditReplacesEditedEntry(d: Dialog, auth: Auth.Snapshot, env: PasswordOperations.Env, codec: Codec, i: int)
    requires Complete(d.form) && d.app.editingPassword.Some?
    requires !(Auth.CloudActive(auth) && !env.remoteOk)
    requires 0 <= i < |d.app.passwords| && d.app.passwords[i].id == d.app.editingPassword.value.id
    ensures var r := Submit(d, auth, env, codec).dialog.app;
      var was := d.app.editingPassword.value;
      && |r.passwords| == |d.app.passwords|
      && r.passwords[i].id == was.id
      && r.passwords[i].createdAt == was.createdAt
      && r.passwords[i].userId == was.userId
      && r.passwords[i].website == d.form.website
      && r.passwords[i].email == d.form.email
      && r.passwords[i].password == d.form.password
      && r.passwords[i].updatedAt == env.now
  {
  }

  /** A failed backend call during submit still closes the dialog, and the
      vault is left as it was. */
  lemma FailedSubmitKeepsVault(d: Dialog, auth: Auth.Snapshot, env: PasswordOperations.Env, codec: Codec)
    requires Complete(d.form)
    requires Auth.CloudActive(auth) && !env.remoteOk
    ensures var r := Submit(d, auth, env, codec).dialog;
      r.app.passwords == d.app.passwords && !r.app.isModalOpen
  {
  }
}
