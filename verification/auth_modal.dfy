/** The sign-in / sign-up dialog (src/components/AuthModal.tsx). Submitting
    checks the form, asks the authentication context to sign up or sign in,
    reports the outcome as a toast, and closes the dialog on success. */
module AuthModal {
  import opened Types
  import AppReducer
  import Auth
  import Toasts

  const MinPasswordLength := 6
  const MismatchMessage := "Passwords do not match"
  const TooShortMessage := "Password must be at least 6 characters"
  const SignedUpMessage := "Account created successfully!"
  const SignedInMessage := "Signed in successfully!"
  const UnexpectedMessage := "An unexpected error occurred"

  datatype AuthForm = AuthForm(email: string, password: string, confirmPassword: string)

  const EmptyAuthForm := AuthForm("", "", "")

  datatype Dialog = Dialog(
    app: AppReducer.AppState,
    form: AuthForm,
    isSignUp: bool,
    loading: bool,
    showPassword: bool)

  /** The first validation failure, in the order the checks run: the
      confirmation (sign-up only), then the length. */
  function Validate(f: AuthForm, isSignUp: bool): (err: Option<string>)
    ensures isSignUp && f.password != f.confirmPassword ==> err == Some(MismatchMessage)
    ensures !(isSignUp && f.password != f.confirmPassword) && |f.password| < MinPasswordLength ==>
      err == Some(TooShortMessage)
    ensures err.None? <==>
      (!isSignUp || f.password == f.confirmPassword) && |f.password| >= MinPasswordLength
  {
    if isSignUp && f.password != f.confirmPassword then Some(MismatchMessage)
    else if |f.password| < MinPasswordLength then Some(TooShortMessage)
    else None
  }

  /** In sign-in mode the confirmation field plays no part. */
  lemma SignInIgnoresConfirmation(f: AuthForm, confirm: string)
    ensures Validate(f, false) == Validate(f.(confirmPassword := confirm), false)
  {
  }

  /** `handleClose`. */
  function Close(d: Dialog): (r: Dialog)
    ensures !r.app.isAuthModalOpen && r.app == d.app.(isAuthModalOpen := false)
    ensures r.form == EmptyAuthForm && !r.isSignUp && !r.showPassword
    ensures r.loading == d.loading
  {
    Dialog(AppReducer.Reduce(d.app, AppReducer.SetAuthModalOpen(false)), EmptyAuthForm, false, d.loading, false)
  }

  /** The result of `handleSubmit`: the dialog afterwards and the backend
      request made, if any. */
  datatype Submitted = Submitted(dialog: Dialog, request: Option<Auth.AuthKind>)

  /** The toast the backend's answer is reported with, and whether it closes
      the dialog. */
  function Report(kind: Auth.AuthKind, result: Auth.AuthResult): (string, bool) {
    match result
    case AuthOk => (if kind == Auth.SignUp then SignedUpMessage else SignedInMessage, true)
    case AuthError(m) => (m, false)
    case AuthThrew => (UnexpectedMessage, false)
  }

  /** `handleSubmit`, given whether the backend is configured, its answer, and
      an id for the toast. */
  function Submit(d: Dialog, available: bool, backend: Auth.AuthResult, toastId: string): (r: Submitted)
    // every exit path clears the busy flag
    ensures !r.dialog.loading
    // every exit path reports exactly one toast
    ensures |r.dialog.app.toasts| == |d.app.toasts| + 1
    ensures r.dialog.app.toasts[..|d.app.toasts|] == d.app.toasts
    // nothing of the application state changes beyond the toasts and the
    // dialog's own visibility
    ensures r.dialog.app == d.app.(toasts := r.dialog.app.toasts, isAuthModalOpen := r.dialog.app.isAuthModalOpen)
    // a rejected form makes no request and reports the first failure
    ensures Validate(d.form, d.isSignUp).Some? ==>
      && r.request.None?
      && r.dialog == d.(app := r.dialog.app, loading := false)
      && r.dialog.app == AppReducer.Reduce(d.app,
           Toasts.ShowToast(toastId, Validate(d.form, d.isSignUp).value, Error))
    // an accepted form reaches the backend exactly when it is configured
    ensures Validate(d.form, d.isSignUp).None? ==>
      (r.request.Some? <==> available)
    ensures Validate(d.form, d.isSignUp).None? && available ==>
      r.request == Some(if d.isSignUp then Auth.SignUp else Auth.SignIn)
    // only a successful answer closes and resets the dialog
    ensures Validate(d.form, d.isSignUp).None? && available && backend.AuthOk? ==>
      && !r.dialog.app.isAuthModalOpen && r.dialog.form == EmptyAuthForm && !r.dialog.isSignUp
      && !r.dialog.showPassword
      && r.dialog.app.toasts[|d.app.toasts|].kind == Success
    ensures Validate(d.form, d.isSignUp).None? && !(available && backend.AuthOk?) ==>
      && r.dialog == d.(app := r.dialog.app, loading := false)
      && r.dialog.app.isAuthModalOpen == d.app.isAuthModalOpen
      && r.dialog.app.toasts[|d.app.toasts|].kind == Error
    ensures Validate(d.form, d.isSignUp).None? && !available ==>
      r.dialog.app.toasts[|d.app.toasts|].message == Auth.NotConfiguredMessage
    ensures Validate(d.form, d.isSignUp).None? && available && backend.AuthError? ==>
      r.dialog.app.toasts[|d.app.toasts|].message == backend.message
    // the vault is never touched
    ensures r.dialog.app.passwords == d.app.passwords
  {
    match Validate(d.form, d.isSignUp)
    case Some(err) =>
      Submitted(d.(app := AppReducer.Reduce(d.app, Toasts.ShowToast(toastId, err, Error)), loading := false), None)
    case None =>
      var kind := if d.isSignUp then Auth.SignUp else Auth.SignIn;
      var call := Auth.RequestAuth(kind, available, backend);
      var (message, closes) := Report(kind, call.result);
      var app := AppReducer.Reduce(d.app, Toasts.ShowToast(toastId, message, if closes then Success else Error));
      var after := if closes then Close(d.(app := app)) else d.(app := app);
      Submitted(after.(loading := false), call.request)
  }

  /** Exactly six characters is long enough; five is not. */
  lemma LengthBoundary(email: string, password: string)
    requires |password| == MinPasswordLength
    ensures Validate(AuthForm(email, password, password), true).None?
    ensures Validate(AuthForm(email, password[..5], password[..5]), true) == Some(TooShortMessage)
  {
  }
}
