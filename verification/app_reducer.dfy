/** The application's state record and its reducer (src/context/AppContext.tsx,
    `appReducer`): a pure function from a state and an action to the next
    state. Each action rewrites exactly one field. */
module AppReducer {
  import opened Types
  import Seqs

  datatype AppState = AppState(
    passwords: seq<PasswordEntry>,
    toasts: seq<Toast>,
    theme: Theme,
    searchQuery: string,
    isModalOpen: bool,
    editingPassword: Option<PasswordEntry>,
    isAuthModalOpen: bool,
    isStorageModeModalOpen: bool)

  const InitialState := AppState([], [], Light, "", false, None, false, false)

  /** The twelve action shapes the reducer knows, plus `Unrecognized` for an
      action object whose `type` is none of them (the `default` branch). */
  datatype Action =
    | SetPasswords(entries: seq<PasswordEntry>)
    | AddPassword(entry: PasswordEntry)
    | UpdatePassword(entry: PasswordEntry)
    | DeletePassword(passwordId: string)
    | AddToast(toast: Toast)
    | RemoveToast(toastId: string)
    | SetTheme(newTheme: Theme)
    | SetSearchQuery(query: string)
    | SetModalOpen(open: bool)
    | SetEditingPassword(editing: Option<PasswordEntry>)
    | SetAuthModalOpen(open: bool)
    | SetStorageModeModalOpen(open: bool)
    | Unrecognized(tag: string)

  /** The actions that may change `passwords`. */
  predicate TouchesPasswords(a: Action) {
    a.SetPasswords? || a.AddPassword? || a.UpdatePassword? || a.DeletePassword?
  }

  /** `passwords.map(p => p.id === e.id ? e : p)`. */
  function ReplaceById(ps: seq<PasswordEntry>, e: PasswordEntry): (r: seq<PasswordEntry>)
    ensures |r| == |ps|
    ensures forall i :: 0 <= i < |ps| ==> r[i] == if ps[i].id == e.id then e else ps[i]
    ensures (forall i :: 0 <= i < |ps| ==> ps[i].id != e.id) ==> r == ps
  {
    if ps == [] then []
    else [if ps[0].id == e.id then e else ps[0]] + ReplaceById(ps[1..], e)
  }

  /** `passwords.filter(p => p.id !== id)`. */
  function RemoveById(ps: seq<PasswordEntry>, id: string): (r: seq<PasswordEntry>)
    ensures |r| <= |ps|
    ensures forall x :: x in r ==> x.id != id
    ensures forall x :: x in ps && x.id != id ==> x in r
    ensures forall x: PasswordEntry :: x.id != id ==> multiset(r)[x] == multiset(ps)[x]
    ensures Seqs.IsSubsequence(r, ps)
  {
    Seqs.Filter(ps, (p: PasswordEntry) => p.id != id)
  }

  /** `toasts.filter(t => t.id !== id)`. */
  function RemoveToastById(ts: seq<Toast>, id: string): (r: seq<Toast>)
    ensures |r| <= |ts|
    ensures forall t :: t in r ==> t.id != id
    ensures forall t :: t in ts && t.id != id ==> t in r
    ensures forall t: Toast :: multiset(r)[t] == if t.id != id then multiset(ts)[t] else 0
    ensures Seqs.IsSubsequence(r, ts)
  {
    Seqs.Filter(ts, (t: Toast) => t.id != id)
  }

  /** `appReducer`. */
  function Reduce(s: AppState, a: Action): (r: AppState)
    // the default branch
    ensures a.Unrecognized? ==> r == s
    // every field changes only under its own action(s)
    ensures r.passwords != s.passwords ==> TouchesPasswords(a)
    ensures r.toasts != s.toasts ==> a.AddToast? || a.RemoveToast?
    ensures r.theme != s.theme ==> a.SetTheme?
    ensures r.searchQuery != s.searchQuery ==> a.SetSearchQuery?
    ensures r.isModalOpen != s.isModalOpen ==> a.SetModalOpen?
    ensures r.editingPassword != s.editingPassword ==> a.SetEditingPassword?
    ensures r.isAuthModalOpen != s.isAuthModalOpen ==> a.SetAuthModalOpen?
    ensures r.isStorageModeModalOpen != s.isStorageModeModalOpen ==> a.SetStorageModeModalOpen?
    // what the password actions do
    ensures a.SetPasswords? ==> r.passwords == a.entries
    ensures a.AddPassword? ==>
      && |r.passwords| == |s.passwords| + 1
      && r.passwords[..|s.passwords|] == s.passwords
      && r.passwords[|s.passwords|] == a.entry
    ensures a.UpdatePassword? ==> r.passwords == ReplaceById(s.passwords, a.entry)
    ensures a.DeletePassword? ==> r.passwords == RemoveById(s.passwords, a.passwordId)
    // what the toast actions do
    ensures a.AddToast? ==>
      && |r.toasts| == |s.toasts| + 1
      && r.toasts[..|s.toasts|] == s.toasts
      && r.toasts[|s.toasts|] == a.toast
    ensures a.RemoveToast? ==> r.toasts == RemoveToastById(s.toasts, a.toastId)
    // the setters store their payload
    ensures a.SetTheme? ==> r.theme == a.newTheme
    ensures a.SetSearchQuery? ==> r.searchQuery == a.query
    ensures a.SetModalOpen? ==> r.isModalOpen == a.open
    ensures a.SetEditingPassword? ==> r.editingPassword == a.editing
    ensures a.SetAuthModalOpen? ==> r.isAuthModalOpen == a.open
    ensures a.SetStorageModeModalOpen? ==> r.isStorageModeModalOpen == a.open
  {
    match a
    case SetPasswords(entries) => s.(passwords := entries)
    case AddPassword(e) => s.(passwords := s.passwords + [e])
    case UpdatePassword(e) => s.(passwords := ReplaceById(s.passwords, e))
    case DeletePassword(id) => s.(passwords := RemoveById(s.passwords, id))
    case AddToast(t) => s.(toasts := s.toasts + [t])
    case RemoveToast(id) => s.(toasts := RemoveToastById(s.toasts, id))
    case SetTheme(t) => s.(theme := t)
    case SetSearchQuery(q) => s.(searchQuery := q)
    case SetModalOpen(b) => s.(isModalOpen := b)
    case SetEditingPassword(e) => s.(editingPassword := e)
    case SetAuthModalOpen(b) => s.(isAuthModalOpen := b)
    case SetStorageModeModalOpen(b) => s.(isStorageModeModalOpen := b)
    case Unrecognized(_) => s
  }

  /** Dispatching a sequence of actions one after the other. */
  function Apply(s: AppState, acts: seq<Action>): (r: AppState)
    ensures (forall i :: 0 <= i < |acts| ==> !TouchesPasswords(acts[i])) ==> r.passwords == s.passwords
    ensures (forall i :: 0 <= i < |acts| ==> acts[i].AddToast?) ==>
      && r == s.(toasts := r.toasts)
      && r.toasts == s.toasts + seq(|acts|, i requires 0 <= i < |acts| => acts[i].toast)
    decreases |acts|
  {
    if acts == [] then s
    else Apply(Reduce(s, acts[0]), acts[1..])
  }
}
