/** The cryptographic primitives the contexts call (src/utils/crypto.js),
    taken as given: SHA-256, PBKDF2 and AES passphrase encryption are
    arbitrary functions held in a `CryptoSuite` value, and only the way the
    contexts combine them is modelled. */
module Crypto {
  import opened Common
  import opened Entries

  /** What `decrypt` can do: throw, yield a falsy value (`null`), or yield the
      entry list. */
  datatype Decrypted = Fails | Falsy | Decoded(entries: seq<Entry>)

  /** `hashMasterPassword`, `deriveKey`, `encrypt` and `decrypt`. */
  datatype CryptoSuite = CryptoSuite(
    hash: string -> string,
    derive: (string, string) -> string,
    encrypt: (seq<Entry>, string) -> string,
    decrypt: (string, string) -> Decrypted)

  /** `verifyMasterPassword(input, stored)`: the hash of the input equals the
      stored hash; a missing stored hash (`null`) never matches a string. */
  predicate VerifyMasterPassword(crypto: CryptoSuite, input: string, stored: Option<string>): (r: bool)
    ensures stored.None? ==> !r
    ensures r ==> stored.value == crypto.hash(input)
    ensures stored == Some(crypto.hash(input)) ==> r
  {
    stored.Some? && crypto.hash(input) == stored.value
  }

  /** Decrypting with the key that encrypted gives the entries back. */
  ghost predicate RoundTrips(crypto: CryptoSuite)
  {
    forall xs, k :: crypto.decrypt(crypto.encrypt(xs, k), k) == Decoded(xs)
  }

  /** A ciphertext is never the empty string, so a saved blob never reads
      back as missing (`getFromStorage` treats `''` as `null`). */
  ghost predicate CiphertextNonEmpty(crypto: CryptoSuite)
  {
    forall xs, k :: crypto.encrypt(xs, k) != ""
  }

  /** Decrypting with any other key fails (the authenticated-encryption
      idealisation of AES under a wrong passphrase). */
  ghost predicate WrongKeyFails(crypto: CryptoSuite)
  {
    forall xs, k, k' :: k != k' ==> crypto.decrypt(crypto.encrypt(xs, k), k') == Fails
  }
}
