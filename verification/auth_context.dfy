/** The authentication session (src/context/AuthContext.jsx): a state
    machine over `isAuthenticated`, `isInitialized`, `masterKey` and `error`,
    with setup, login, logout, reset and master-password change reading and
    writing the store.

    The salt that `generateSalt` would draw is a parameter. None of the
    store helpers or crypto functions the session calls throws (the store
    helpers catch their own errors), so the `catch` branches of the source
    are unreachable and not modelled. */
module AuthContext {
  import opened Common
  import opened Entries
  import opened Storage
  import opened Crypto

  const MsgNotInitialized := "Application not properly initialized"
  const MsgInvalidPassword := "Invalid master password"
  const MsgIncorrectCurrent := "Current password is incorrect"
  const MsgChangeFailed := "Failed to change master password"

  /** What `login(password)` decides from the stored hash and salt. */
  datatype LoginResult = NotInitialized | WrongPassword | LoggedIn(key: string)

  function LoginOutcome(items: Items, crypto: CryptoSuite, password: string): (r: LoginResult)
    ensures r.NotInitialized? <==>
      Lookup(items, MasterPasswordHashKey).None? || Lookup(items, SaltKey).None?
    ensures r.LoggedIn? <==>
      Lookup(items, SaltKey).Some?
      && VerifyMasterPassword(crypto, password, Lookup(items, MasterPasswordHashKey))
    ensures r.LoggedIn? ==> r.key == crypto.derive(password, Lookup(items, SaltKey).value)
  {
    var storedHash := Lookup(items, MasterPasswordHashKey);
    var salt := Lookup(items, SaltKey);
    if storedHash.None? || salt.None? then NotInitialized
    else if !VerifyMasterPassword(crypto, password, storedHash) then WrongPassword
    else LoggedIn(crypto.derive(password, salt.value))
  }

  /** The store after `setupMasterPassword(password)` with salt `salt`:
      `saveMasterPasswordHash`, then `markAppInitialized` once more. */
  function SetupItems(items: Items, accepts: (Items, string, string) -> bool,
                      crypto: CryptoSuite, password: string, salt: string): Items
  {
    Write(SavedHashItems(items, accepts, crypto.hash(password), salt),
          accepts, InitializedKey, "true")
  }

  /** After setup on a store that takes every write, exactly the passwords
      with the same hash log in, and they get the key derived with the new
      salt; so the same password restores the same key. */
  lemma SetupThenLogin(items: Items, accepts: (Items, string, string) -> bool,
                       crypto: CryptoSuite, password: string, salt: string, attempt: string)
    requires AcceptsAll(accepts)
    requires crypto.hash(password) != "" && salt != ""
    ensures LoginOutcome(SetupItems(items, accepts, crypto, password, salt), crypto, password)
            == LoggedIn(crypto.derive(password, salt))
    ensures LoginOutcome(SetupItems(items, accepts, crypto, password, salt), crypto, attempt).LoggedIn?
            <==> crypto.hash(attempt) == crypto.hash(password)
  {
    SaveMasterPasswordHashReadsBack(items, accepts, crypto.hash(password), salt);
    var after := SetupItems(items, accepts, crypto, password, salt);
    assert Lookup(after, MasterPasswordHashKey) == Some(crypto.hash(password));
    assert Lookup(after, SaltKey) == Some(salt);
  }

  /** After `clearAllData` nobody can log in and the app reads as not
      initialized. */
  lemma ResetThenNotInitialized(items: Items, crypto: CryptoSuite, password: string)
    ensures LoginOutcome(ClearedItems(items), crypto, password) == NotInitialized
    ensures Lookup(ClearedItems(items), InitializedKey) == None
  {
    var after := ClearedItems(items);
    assert MasterPasswordHashKey in StorageKeys;
    assert InitializedKey in StorageKeys;
    assert MasterPasswordHashKey !in after;
  }

  class AuthSession {
    var isAuthenticated: bool
    var isInitialized: bool
    var masterKey: Option<string>
    var error: Option<string>
    const store: Store
    const crypto: CryptoSuite

    /** The provider's initial state, then the mount effect that reads the
      initialized flag. */
    constructor (store: Store, crypto: CryptoSuite)
      ensures this.store == store && this.crypto == crypto
      ensures !isAuthenticated && masterKey == None && error == None
      ensures isInitialized == Lookup(store.items, InitializedKey).Some?
    {
      this.store := store;
      this.crypto := crypto;
      isAuthenticated := false;
      masterKey := None;
      error := None;
      isInitialized := false;
      new;
      var initialized := store.IsAppInitialized();
      isInitialized := initialized;
    }

    /** `setupMasterPassword(password)` with the drawn salt: persists the
      hash and salt (whether or not the app was initialized before), derives
      the key, and opens the session. It always reports success. */
    method SetupMasterPassword(password: string, salt: string) returns (ok: bool)
      modifies this, store
      ensures ok
      ensures store.items == SetupItems(old(store.items), store.accepts, crypto, password, salt)
      ensures masterKey == Some(crypto.derive(password, salt))
      ensures isInitialized && isAuthenticated && error == None
    {
      var passwordHash := crypto.hash(password);
      store.SaveMasterPasswordHash(passwordHash, salt);
      var key := crypto.derive(password, salt);
      masterKey := Some(key);
      store.MarkAppInitialized();
      isInitialized := true;
      isAuthenticated := true;
      error := None;
      ok := true;
    }

    /** `login(password)`: fails with "not properly initialized" when hash or
      salt is missing and with "invalid master password" on a hash mismatch,
      leaving key and flags as they were; otherwise derives the key from the
      stored salt and opens the session. The store is only read. */
    method Login(password: string) returns (ok: bool)
      modifies this
      ensures ok <==> LoginOutcome(store.items, crypto, password).LoggedIn?
      ensures ok ==> masterKey == Some(LoginOutcome(store.items, crypto, password).key)
                     && isAuthenticated && error == None
      ensures LoginOutcome(store.items, crypto, password) == NotInitialized ==>
                error == Some(MsgNotInitialized)
      ensures LoginOutcome(store.items, crypto, password) == WrongPassword ==>
                error == Some(MsgInvalidPassword)
      ensures !ok ==> masterKey == old(masterKey) && isAuthenticated == old(isAuthenticated)
      ensures isInitialized == old(isInitialized)
    {
      var storedHash := store.GetMasterPasswordHash();
      var salt := store.GetSalt();
      if storedHash.None? || salt.None? {
        error := Some(MsgNotInitialized);
        return false;
      }
      if !VerifyMasterPassword(crypto, password, storedHash) {
        error := Some(MsgInvalidPassword);
        return false;
      }
      var key := crypto.derive(password, salt.value);
      masterKey := Some(key);
      isAuthenticated := true;
      error := None;
      ok := true;
    }

    /** `logout`: closes the session and forgets the key; nothing persisted
      changes. */
    method Logout()
      modifies this
      ensures !isAuthenticated && masterKey == None
      ensures isInitialized == old(isInitialized) && error == old(error)
    {
      isAuthenticated := false;
      masterKey := None;
    }

    /** `resetApp`: wipes the five application keys and returns to the
      uninitialized state; the error is left as it was. */
    method ResetApp() returns (ok: bool)
      modifies this, store
      ensures ok
      ensures store.items == ClearedItems(old(store.items))
      ensures !isAuthenticated && !isInitialized && masterKey == None
      ensures error == old(error)
    {
      var _ := store.ClearAllData();
      isAuthenticated := false;
      isInitialized := false;
      masterKey := None;
      ok := true;
    }

    /** `changeMasterPassword(current, next)` as written, with the drawn salt:
      a wrong current password (or no stored hash) changes nothing but the
      error; otherwise the new hash and salt are saved and the key is
      re-derived. The session flags are not consulted, and the encrypted
      entries stay as they were, under the previous key. */
    method ChangeMasterPassword(current: string, next: string, newSalt: string) returns (ok: bool)
      modifies this, store
      ensures ok <==> VerifyMasterPassword(crypto, current, Lookup(old(store.items), MasterPasswordHashKey))
      ensures !ok ==> store.items == old(store.items) && masterKey == old(masterKey)
                      && error == Some(MsgIncorrectCurrent)
      ensures ok ==> store.items == SavedHashItems(old(store.items), store.accepts,
                                                   crypto.hash(next), newSalt)
                     && masterKey == Some(crypto.derive(next, newSalt)) && error == None
      ensures isAuthenticated == old(isAuthenticated) && isInitialized == old(isInitialized)
    {
      var storedHash := store.GetMasterPasswordHash();
      if !VerifyMasterPassword(crypto, current, storedHash) {
        error := Some(MsgIncorrectCurrent);
        return false;
      }
      var newHash := crypto.hash(next);
      store.SaveMasterPasswordHash(newHash, newSalt);
      var newKey := crypto.derive(next, newSalt);
      masterKey := Some(newKey);
      error := None;
      ok := true;
    }

    /** The corrected change: before the new hash and salt are saved, the
      stored entries are decrypted with the key of the current password and
      written back encrypted under the new key. When the entries cannot be
      decrypted or the rewritten blob is refused, nothing changes and the
      change fails. */
    method ChangeMasterPasswordKeepingVault(current: string, next: string, newSalt: string)
      returns (ok: bool)
      modifies this, store
      ensures ok <==> VerifyMasterPassword(crypto, current, Lookup(old(store.items), MasterPasswordHashKey))
                      && ReencryptedItems(old(store.items), store.accepts, crypto, current, next, newSalt).Some?
      ensures !ok ==> store.items == old(store.items) && masterKey == old(masterKey)
      ensures ok ==> ReencryptedItems(old(store.items), store.accepts, crypto, current, next, newSalt).Some?
                     && store.items == SavedHashItems(
                          ReencryptedItems(old(store.items), store.accepts, crypto, current, next, newSalt).value,
                          store.accepts, crypto.hash(next), newSalt)
                     && masterKey == Some(crypto.derive(next, newSalt)) && error == None
      ensures isAuthenticated == old(isAuthenticated) && isInitialized == old(isInitialized)
    {
      var storedHash := store.GetMasterPasswordHash();
      if !VerifyMasterPassword(crypto, current, storedHash) {
        error := Some(MsgIncorrectCurrent);
        return false;
      }
      var newKey := crypto.derive(next, newSalt);
      var blob := store.GetPasswords();
      if blob.Some? {
        var salt := store.GetSalt();
        if salt.None? {
          error := Some(MsgChangeFailed);
          return false;
        }
        var decrypted := crypto.decrypt(blob.value, crypto.derive(current, salt.value));
        if decrypted.Fails? {
          error := Some(MsgChangeFailed);
          return false;
        }
        var entries := if decrypted.Decoded? then decrypted.entries else [];
        var saved := store.SavePasswords(crypto.encrypt(entries, newKey));
        if !saved {
          error := Some(MsgChangeFailed);
          return false;
        }
      }
      var newHash := crypto.hash(next);
      store.SaveMasterPasswordHash(newHash, newSalt);
      masterKey := Some(newKey);
      error := None;
      ok := true;
    }

    /** `clearError`. */
    method ClearError()
      modifies this
      ensures error == None
      ensures isAuthenticated == old(isAuthenticated) && isInitialized == old(isInitialized)
              && masterKey == old(masterKey)
    {
      error := None;
    }
  }

  /** The store after the corrected change rewrites the entry blob under the
      new key, or `None` when it cannot (no salt, undecryptable blob, refused
      write). Without a blob there is nothing to rewrite. */
  function ReencryptedItems(items: Items, accepts: (Items, string, string) -> bool,
                            crypto: CryptoSuite, current: string, next: string,
                            newSalt: string): (r: Option<Items>)
    ensures Lookup(items, PasswordsKey).None? ==> r == Some(items)
    ensures r.Some? ==> forall k :: k != PasswordsKey ==> Lookup(r.value, k) == Lookup(items, k)
  {
    var blob := Lookup(items, PasswordsKey);
    var salt := Lookup(items, SaltKey);
    if blob.None? then Some(items)
    else if salt.None? then None
    else
      var decrypted := crypto.decrypt(blob.value, crypto.derive(current, salt.value));
      if decrypted.Fails? then None
      else
        var entries := if decrypted.Decoded? then decrypted.entries else [];
        var data := crypto.encrypt(entries, crypto.derive(next, newSalt));
        if accepts(items, PasswordsKey, data) then Some(items[PasswordsKey := data]) else None
  }

  /** Setup, logout, then login with the same password: the session is open
      again with the same key, because the salt is reused. */
  method SetupLogoutLogin(session: AuthSession, password: string, salt: string) returns (ok: bool)
    requires AcceptsAll(session.store.accepts)
    requires session.crypto.hash(password) != "" && salt != ""
    modifies session, session.store
    ensures ok && session.isAuthenticated
    ensures session.masterKey == Some(session.crypto.derive(password, salt))
  {
    var _ := session.SetupMasterPassword(password, salt);
    var keyAfterSetup := session.masterKey;
    session.Logout();
    SetupThenLogin(old(session.store.items), session.store.accepts, session.crypto, password, salt, password);
    ok := session.Login(password);
    assert session.masterKey == keyAfterSetup;
  }
}
