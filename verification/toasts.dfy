/** `showToast` (src/hooks/useToast.ts): the notification it dispatches. The
    timer that removes the toast later is not modelled; the toast id, drawn at
    random in the source, is a parameter. */
module Toasts {
  import opened Types
  import AppReducer

  const DefaultDuration := 3000

  /** The `ADD_TOAST` action `showToast(message, kind)` dispatches. */
  function ShowToast(id: string, message: string, kind: ToastKind): (a: AppReducer.Action)
    ensures a.AddToast? && a.toast.message == message && a.toast.kind == kind
    ensures a.toast.id == id && a.toast.duration == Some(DefaultDuration)
  {
    AppReducer.AddToast(Toast(id, message, kind, Some(DefaultDuration)))
  }
}
