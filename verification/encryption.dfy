/** The encryption helpers `encryptData`/`decryptData` (src/utils/encryption.ts)
    are not part of this model. They enter every operation that needs them as
    an explicit parameter of type `Codec`, so nothing is assumed about them
    beyond what a lemma states as a hypothesis. */
module Encryption {
  import opened Types

  /** The four ways the application uses the helpers. A `None` result stands
      for a call that throws and is caught by the caller. */
  datatype Codec = Codec(
    // JSON.stringify(encryptData(vault)): the blob written to local storage
    sealVault: seq<PasswordEntry> -> Option<string>,
    // decryptData(JSON.parse(blob)): the vault read back from local storage
    openVault: string -> Option<seq<PasswordEntry>>,
    // encryptData(password): the secret column sent to the cloud backend
    sealSecret: string -> string,
    // decryptData(encrypted_password): the secret column read back
    openSecret: string -> Option<string>)

  /** The codec gives `v` back from the blob it writes for `v`, and that blob is
      non-empty (a JSON text never is). */
  predicate VaultRoundTrips(c: Codec, v: seq<PasswordEntry>) {
    c.sealVault(v).Some? ==>
      && c.sealVault(v).value != ""
      && c.openVault(c.sealVault(v).value) == Some(v)
  }
}
