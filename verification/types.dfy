/** The records of the password manager: one datatype per shape the
    application passes around (src/types/index.ts). Dates are reduced to
    integer timestamps; optional fields become `Option`. */
module Types {

  datatype Option<+T> = None | Some(value: T)

  /** A point in time (the source's `Date`), e.g. milliseconds since the epoch. */
  type Timestamp = int

  /** One stored credential. `id` identifies it within a vault. */
  datatype PasswordEntry = PasswordEntry(
    id: string,
    website: string,
    email: string,
    password: string,
    createdAt: Timestamp,
    updatedAt: Timestamp,
    userId: Option<string>)

  /** The three user-entered fields of an entry: what the add form holds and
      what `addPassword` receives. */
  datatype EntryFields = EntryFields(website: string, email: string, password: string)

  const EmptyFields := EntryFields("", "", "")

  datatype ToastKind = Success | Error | Info

  datatype Toast = Toast(id: string, message: string, kind: ToastKind, duration: Option<int>)

  datatype Theme = Light | Dark

  /** A signed-in account of the cloud backend. */
  datatype User = User(id: string, email: string, createdAt: string)

  datatype StorageMode = Local | Cloud

  /** The browser's key–value store, as a plain map. */
  type Storage = map<string, string>

  /** `localStorage.getItem(k)` followed by the source's truthiness test:
      a missing key and the empty string both read as nothing. */
  function ReadNonEmpty(store: Storage, key: string): (r: Option<string>)
    ensures r.Some? <==> key in store && store[key] != ""
    ensures r.Some? ==> r.value == store[key]
  {
    if key in store && store[key] != "" then Some(store[key]) else None
  }
}
