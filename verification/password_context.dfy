/** The credential collection (src/context/PasswordContext.jsx): the
    decrypted entry list of the open session, loaded from and saved to the
    encrypted blob in the store.

    The load effect, which React re-runs whenever `isAuthenticated` or
    `masterKey` changes, is the explicit method `LoadPasswords`. The UUID and
    the clock reading of `addPassword`/`updatePassword` are parameters. The
    `isLoading` flag is not modelled. */
module PasswordContext {
  import opened Common
  import opened Entries
  import opened Storage
  import opened Crypto
  import opened AuthContext

  const MsgLoadFailed := "Failed to load passwords"
  const MsgSaveFailed := "Failed to save passwords"
  const MsgUpdateFailed := "Failed to update password"

  /** What the load effect decides: clear the list (no session), fail
      (decryption threw), or load a list (possibly empty). */
  datatype LoadResult = Cleared | LoadFailed | Loaded(entries: seq<Entry>)

  function LoadOutcome(items: Items, crypto: CryptoSuite, authenticated: bool,
                       masterKey: Option<string>): (r: LoadResult)
    ensures r.Cleared? <==> !authenticated || !Truthy(masterKey)
    ensures r.LoadFailed? <==>
      authenticated && Truthy(masterKey) && Lookup(items, PasswordsKey).Some?
      && crypto.decrypt(Lookup(items, PasswordsKey).value, masterKey.value).Fails?
    ensures authenticated && Truthy(masterKey) && Lookup(items, PasswordsKey).None? ==>
      r == Loaded([])
    ensures r.Loaded? && r.entries != [] ==>
      crypto.decrypt(Lookup(items, PasswordsKey).value, masterKey.value) == Decoded(r.entries)
  {
    if !authenticated || !Truthy(masterKey) then Cleared
    else
      var blob := Lookup(items, PasswordsKey);
      if blob.None? then Loaded([])
      else
        match crypto.decrypt(blob.value, masterKey.value)
        case Fails => LoadFailed
        case Falsy => Loaded([])
        case Decoded(xs) => Loaded(xs)
  }

  class PasswordVault {
    var passwords: seq<Entry>
    var error: Option<string>
    const auth: AuthSession

    constructor (auth: AuthSession)
      ensures this.auth == auth && passwords == [] && error == None
    {
      this.auth := auth;
      passwords := [];
      error := None;
    }

    /** The load effect: no session clears the list; a stored blob is
      decrypted with the master key, a falsy result giving an empty list;
      a failed decryption keeps the list and sets the error. */
    method LoadPasswords()
      modifies this
      ensures var outcome := LoadOutcome(auth.store.items, auth.crypto, auth.isAuthenticated, auth.masterKey);
              match outcome
              case Cleared => passwords == [] && error == old(error)
              case LoadFailed => passwords == old(passwords) && error == Some(MsgLoadFailed)
              case Loaded(xs) => passwords == xs && error == None
    {
      if auth.isAuthenticated && Truthy(auth.masterKey) {
        var encryptedData := auth.store.GetPasswords();
        if encryptedData.Some? {
          var decrypted := auth.crypto.decrypt(encryptedData.value, auth.masterKey.value);
          if decrypted.Fails? {
            error := Some(MsgLoadFailed);
            return;
          }
          passwords := if decrypted.Decoded? then decrypted.entries else [];
        } else {
          passwords := [];
        }
        error := None;
      } else {
        passwords := [];
      }
    }

    /** Whether saving `list` over the store contents `before` goes through:
      there is a master key and the store takes the encrypted blob. */
    predicate SaveAccepted(before: Items, list: seq<Entry>)
      reads auth
    {
      Truthy(auth.masterKey)
      && auth.store.accepts(before, PasswordsKey, auth.crypto.encrypt(list, auth.masterKey.value))
    }

    /** The store contents after `list` is saved over `before`. */
    function SavedItems(before: Items, list: seq<Entry>): Items
      reads auth
      requires Truthy(auth.masterKey)
    {
      before[PasswordsKey := auth.crypto.encrypt(list, auth.masterKey.value)]
    }

    /** `savePasswordsToStorage(updated)`: encrypts under the master key and
      writes the blob; only when the write succeeds does the in-memory list
      become `updated`. Without a key, or when the write is refused, the
      list and the store stay as they were. */
    method SavePasswordsToStorage(updated: seq<Entry>) returns (ok: bool)
      modifies this, auth.store
      ensures ok <==> SaveAccepted(old(auth.store.items), updated)
      ensures ok ==> passwords == updated && error == None
                     && auth.store.items == SavedItems(old(auth.store.items), updated)
      ensures !ok ==> passwords == old(passwords) && error == Some(MsgSaveFailed)
                      && auth.store.items == old(auth.store.items)
    {
      if !Truthy(auth.masterKey) {
        error := Some(MsgSaveFailed);
        return false;
      }
      var encryptedData := auth.crypto.encrypt(updated, auth.masterKey.value);
      var saved := auth.store.SavePasswords(encryptedData);
      if !saved {
        error := Some(MsgSaveFailed);
        return false;
      }
      passwords := updated;
      error := None;
      ok := true;
    }

    /** `addPassword(draft)`: succeeds exactly when the list with the stamped
      entry appended can be saved; the list and the stored blob then agree. */
    method AddPassword(draft: Entry, uuid: string, created: int, updated: int) returns (added: Option<Entry>)
      modifies this, auth.store
      ensures added.Some? <==> SaveAccepted(old(auth.store.items), old(passwords) + [NewEntry(draft, uuid, created, updated)])
      ensures added.Some? ==> added.value == NewEntry(draft, uuid, created, updated)
                              && passwords == old(passwords) + [added.value] && error == None
                              && auth.store.items == SavedItems(old(auth.store.items), passwords)
      ensures added.None? ==> passwords == old(passwords) && auth.store.items == old(auth.store.items)
                              && error == Some(MsgSaveFailed)
    {
      var newEntry := NewEntry(draft, uuid, created, updated);
      var updatedPasswords := passwords + [newEntry];
      var saved := SavePasswordsToStorage(updatedPasswords);
      added := if saved then Some(newEntry) else None;
    }

    /** `updatePassword(id, updates)`: an unknown id fails with nothing
      changed but the error; otherwise it succeeds exactly when the list with
      the first entry of that id replaced, at the same index, by the merged
      and restamped entry can be saved. */
    method UpdatePassword(id: string, updates: Entry, now: int) returns (updated: Option<Entry>)
      modifies this, auth.store
      ensures FindIndex(old(passwords), id) == -1 ==>
        updated == None && passwords == old(passwords) && auth.store.items == old(auth.store.items)
        && error == Some(MsgUpdateFailed)
      ensures FindIndex(old(passwords), id) >= 0 ==>
        var k := FindIndex(old(passwords), id);
        var list := old(passwords)[k := UpdatedEntry(old(passwords)[k], updates, now)];
        (updated.Some? <==> SaveAccepted(old(auth.store.items), list))
        && (updated.Some? ==> updated.value == UpdatedEntry(old(passwords)[k], updates, now)
                              && passwords == list && error == None
                              && auth.store.items == SavedItems(old(auth.store.items), list))
        && (updated.None? ==> passwords == old(passwords) && auth.store.items == old(auth.store.items)
                              && error == Some(MsgSaveFailed))
    {
      var passwordIndex := FindIndex(passwords, id);
      if passwordIndex == -1 {
        error := Some(MsgUpdateFailed);
        return None;
      }
      var updatedEntry := UpdatedEntry(passwords[passwordIndex], updates, now);
      var updatedPasswords := passwords[passwordIndex := updatedEntry];
      var saved := SavePasswordsToStorage(updatedPasswords);
      updated := if saved then Some(updatedEntry) else None;
    }

    /** `deletePassword(id)`: succeeds exactly when the list without the
      entries with that id, in their original order, can be saved; an
      unknown id saves the same list. */
    method DeletePassword(id: string) returns (ok: bool)
      modifies this, auth.store
      ensures ok <==> SaveAccepted(old(auth.store.items), RemoveId(old(passwords), id))
      ensures ok ==> passwords == RemoveId(old(passwords), id) && error == None
                     && auth.store.items == SavedItems(old(auth.store.items), passwords)
      ensures ok && (forall j :: 0 <= j < |old(passwords)| ==> !HasId(old(passwords)[j], id)) ==>
                passwords == old(passwords)
      ensures !ok ==> passwords == old(passwords) && auth.store.items == old(auth.store.items)
                      && error == Some(MsgSaveFailed)
    {
      if forall j :: 0 <= j < |passwords| ==> !HasId(passwords[j], id) {
        RemoveUnknownId(passwords, id);
      }
      ok := SavePasswordsToStorage(RemoveId(passwords, id));
    }

    /** `getPasswordById(id)`: the first entry with that id, or `None`. */
    method GetPasswordById(id: string) returns (entry: Option<Entry>)
      ensures entry.None? <==> forall j :: 0 <= j < |passwords| ==> !HasId(passwords[j], id)
      ensures entry.Some? ==> HasId(entry.value, id) && entry.value in passwords
      ensures entry.Some? ==> forall j :: 0 <= j < FindIndex(passwords, id) ==> !HasId(passwords[j], id)
      ensures entry.Some? ==> entry.value == passwords[FindIndex(passwords, id)]
    {
      entry := FindById(passwords, id);
    }

    /** `clearError`. */
    method ClearError()
      modifies this
      ensures error == None && passwords == old(passwords)
    {
      error := None;
    }
  }

  /** Updating replaces one entry: the length stays and every other index
      keeps its entry. */
  lemma UpdateTouchesOneEntry(list: seq<Entry>, id: string, e: Entry)
    requires FindIndex(list, id) >= 0
    ensures |list[FindIndex(list, id) := e]| == |list|
    ensures forall j :: 0 <= j < |list| && j != FindIndex(list, id) ==>
      list[FindIndex(list, id) := e][j] == list[j]
  {
  }

  /** Saving entries and then loading them in an open session gives them
      back, for a crypto suite whose decryption inverts encryption, as long
      as the blob is not the empty string. */
  lemma SaveThenLoad(items: Items, crypto: CryptoSuite, key: string, xs: seq<Entry>)
    requires RoundTrips(crypto) && key != ""
    requires crypto.encrypt(xs, key) != ""
    ensures LoadOutcome(items[PasswordsKey := crypto.encrypt(xs, key)], crypto, true, Some(key))
            == Loaded(xs)
  {
    assert crypto.decrypt(crypto.encrypt(xs, key), key) == Decoded(xs);
  }

  /** The defect of `changeMasterPassword`: a vault saved under the key of
      `p1` and salt `s1`, after the change to `p2` with salt `s2`, opens with
      `p2` but its entries no longer decrypt under the new key, and `p1` is
      refused. The entries are unreachable. */
  lemma ChangeStrandsVault(items: Items, accepts: (Items, string, string) -> bool,
                           crypto: CryptoSuite, p1: string, s1: string,
                           p2: string, s2: string, xs: seq<Entry>)
    requires AcceptsAll(accepts) && WrongKeyFails(crypto)
    requires Lookup(items, MasterPasswordHashKey) == Some(crypto.hash(p1))
    requires Lookup(items, SaltKey) == Some(s1)
    requires Lookup(items, PasswordsKey) == Some(crypto.encrypt(xs, crypto.derive(p1, s1)))
    requires crypto.hash(p2) != "" && crypto.hash(p2) != crypto.hash(p1) && s2 != ""
    requires crypto.derive(p2, s2) != "" && crypto.derive(p2, s2) != crypto.derive(p1, s1)
    ensures var after := SavedHashItems(items, accepts, crypto.hash(p2), s2);
            LoginOutcome(after, crypto, p2) == LoggedIn(crypto.derive(p2, s2))
            && LoadOutcome(after, crypto, true, Some(crypto.derive(p2, s2))) == LoadFailed
            && LoginOutcome(after, crypto, p1) == WrongPassword
  {
    var after := SavedHashItems(items, accepts, crypto.hash(p2), s2);
    SaveMasterPasswordHashReadsBack(items, accepts, crypto.hash(p2), s2);
    assert Lookup(after, PasswordsKey) == Lookup(items, PasswordsKey);
    assert crypto.decrypt(crypto.encrypt(xs, crypto.derive(p1, s1)), crypto.derive(p2, s2)) == Fails;
  }

  /** The corrected change keeps the vault: after it, logging in with the
      new password and loading gives back exactly the entries that were
      stored under the old key. */
  lemma ReencryptingChangeKeepsVault(items: Items, accepts: (Items, string, string) -> bool,
                                     crypto: CryptoSuite, p1: string, s1: string,
                                     p2: string, s2: string, xs: seq<Entry>)
    requires AcceptsAll(accepts) && RoundTrips(crypto)
    requires Lookup(items, MasterPasswordHashKey) == Some(crypto.hash(p1))
    requires Lookup(items, SaltKey) == Some(s1)
    requires Lookup(items, PasswordsKey) == Some(crypto.encrypt(xs, crypto.derive(p1, s1)))
    requires crypto.hash(p2) != "" && s2 != "" && crypto.derive(p2, s2) != ""
    requires crypto.encrypt(xs, crypto.derive(p2, s2)) != ""
    ensures ReencryptedItems(items, accepts, crypto, p1, p2, s2).Some?
    ensures var after := SavedHashItems(ReencryptedItems(items, accepts, crypto, p1, p2, s2).value,
                                        accepts, crypto.hash(p2), s2);
            LoginOutcome(after, crypto, p2) == LoggedIn(crypto.derive(p2, s2))
            && LoadOutcome(after, crypto, true, Some(crypto.derive(p2, s2))) == Loaded(xs)
  {
    var k1 := crypto.derive(p1, s1);
    var k2 := crypto.derive(p2, s2);
    assert crypto.decrypt(crypto.encrypt(xs, k1), k1) == Decoded(xs);
    var mid := ReencryptedItems(items, accepts, crypto, p1, p2, s2);
    assert mid == Some(items[PasswordsKey := crypto.encrypt(xs, k2)]);
    var after := SavedHashItems(mid.value, accepts, crypto.hash(p2), s2);
    SaveMasterPasswordHashReadsBack(mid.value, accepts, crypto.hash(p2), s2);
    assert Lookup(after, PasswordsKey) == Some(crypto.encrypt(xs, k2));
    assert crypto.decrypt(crypto.encrypt(xs, k2), k2) == Decoded(xs);
  }

  /** The defect on the live objects: change the master password from `p1`
      to `p2`, log out, log in with `p2`; the load effect then fails and the
      list stays empty, although the store holds the entries `xs`. */
  method ChangeLogoutLogin(vault: PasswordVault, p1: string, s1: string, p2: string, s2: string,
                           xs: seq<Entry>)
    returns (changed: bool, loggedIn: bool)
    requires AcceptsAll(vault.auth.store.accepts) && WrongKeyFails(vault.auth.crypto)
    requires var crypto := vault.auth.crypto; var items := vault.auth.store.items;
      Lookup(items, MasterPasswordHashKey) == Some(crypto.hash(p1))
      && Lookup(items, SaltKey) == Some(s1)
      && Lookup(items, PasswordsKey) == Some(crypto.encrypt(xs, crypto.derive(p1, s1)))
      && crypto.hash(p2) != "" && crypto.hash(p2) != crypto.hash(p1) && s2 != ""
      && crypto.derive(p2, s2) != "" && crypto.derive(p2, s2) != crypto.derive(p1, s1)
    modifies vault, vault.auth, vault.auth.store
    ensures changed && loggedIn && vault.auth.isAuthenticated
    ensures vault.passwords == [] && vault.error == Some(MsgLoadFailed)
  {
    var auth := vault.auth;
    ChangeStrandsVault(auth.store.items, auth.store.accepts, auth.crypto, p1, s1, p2, s2, xs);
    changed := auth.ChangeMasterPassword(p1, p2, s2);
    auth.Logout();
    vault.LoadPasswords();
    loggedIn := auth.Login(p2);
    vault.LoadPasswords();
  }

  /** The same sequence with the corrected change: the entries come back. */
  method ChangeKeepingVaultLogoutLogin(vault: PasswordVault, p1: string, s1: string,
                                      p2: string, s2: string, xs: seq<Entry>)
    returns (changed: bool, loggedIn: bool)
    requires AcceptsAll(vault.auth.store.accepts) && RoundTrips(vault.auth.crypto)
    requires var crypto := vault.auth.crypto; var items := vault.auth.store.items;
      Lookup(items, MasterPasswordHashKey) == Some(crypto.hash(p1))
      && Lookup(items, SaltKey) == Some(s1)
      && Lookup(items, PasswordsKey) == Some(crypto.encrypt(xs, crypto.derive(p1, s1)))
      && crypto.hash(p2) != "" && s2 != "" && crypto.derive(p2, s2) != ""
      && crypto.encrypt(xs, crypto.derive(p2, s2)) != ""
    modifies vault, vault.auth, vault.auth.store
    ensures changed && loggedIn && vault.auth.isAuthenticated
    ensures vault.passwords == xs && vault.error == None
  {
    var auth := vault.auth;
    ReencryptingChangeKeepsVault(auth.store.items, auth.store.accepts, auth.crypto, p1, s1, p2, s2, xs);
    changed := auth.ChangeMasterPasswordKeepingVault(p1, p2, s2);
    auth.Logout();
    vault.LoadPasswords();
    loggedIn := auth.Login(p2);
    vault.LoadPasswords();
  }

  /** Add an entry, log out, and log in again with the password of the open
      session: the reloaded list is the previous list with the new entry at
      the end, the same list the store now holds. */
  method AddLogoutLogin(vault: PasswordVault, password: string, draft: Entry, uuid: string,
                        created: int, updated: int)
    returns (added: Option<Entry>, loggedIn: bool)
    requires RoundTrips(vault.auth.crypto) && CiphertextNonEmpty(vault.auth.crypto)
    requires Truthy(vault.auth.masterKey)
    requires LoginOutcome(vault.auth.store.items, vault.auth.crypto, password)
             == LoggedIn(vault.auth.masterKey.value)
    requires vault.SaveAccepted(vault.auth.store.items, vault.passwords + [NewEntry(draft, uuid, created, updated)])
    modifies vault, vault.auth, vault.auth.store
    ensures added == Some(NewEntry(draft, uuid, created, updated)) && loggedIn
    ensures vault.passwords == old(vault.passwords) + [NewEntry(draft, uuid, created, updated)]
    ensures vault.error == None
  {
    var auth := vault.auth;
    var key := auth.masterKey.value;
    added := vault.AddPassword(draft, uuid, created, updated);
    assert LoginOutcome(auth.store.items, auth.crypto, password) == LoggedIn(key);
    auth.Logout();
    vault.LoadPasswords();
    loggedIn := auth.Login(password);
    vault.LoadPasswords();
  }

  /** Delete the entries with an id, then restart over the same store: a new
      session logs in with the same password and loads exactly the list the
      deletion left, so no deleted entry comes back. */
  method DeleteRestartReload(vault: PasswordVault, password: string, id: string)
    returns (ok: bool, reloaded: PasswordVault)
    requires RoundTrips(vault.auth.crypto) && CiphertextNonEmpty(vault.auth.crypto)
    requires Truthy(vault.auth.masterKey)
    requires LoginOutcome(vault.auth.store.items, vault.auth.crypto, password)
             == LoggedIn(vault.auth.masterKey.value)
    requires vault.SaveAccepted(vault.auth.store.items, RemoveId(vault.passwords, id))
    modifies vault, vault.auth.store
    ensures ok && reloaded.auth.isAuthenticated
    ensures reloaded.passwords == vault.passwords == RemoveId(old(vault.passwords), id)
    ensures forall e :: e in reloaded.passwords ==> !HasId(e, id)
  {
    var key := vault.auth.masterKey.value;
    ok := vault.DeletePassword(id);
    assert LoginOutcome(vault.auth.store.items, vault.auth.crypto, password) == LoggedIn(key);
    var session := new AuthSession(vault.auth.store, vault.auth.crypto);
    reloaded := new PasswordVault(session);
    var loggedIn := session.Login(password);
    reloaded.LoadPasswords();
  }

  /** Update an entry, then restart over the same store: the reloaded list
      holds the updated entry at its index and every other entry as before. */
  method UpdateRestartReload(vault: PasswordVault, password: string, id: string,
                             updates: Entry, now: int)
    returns (updated: Option<Entry>, reloaded: PasswordVault)
    requires RoundTrips(vault.auth.crypto) && CiphertextNonEmpty(vault.auth.crypto)
    requires Truthy(vault.auth.masterKey)
    requires LoginOutcome(vault.auth.store.items, vault.auth.crypto, password)
             == LoggedIn(vault.auth.masterKey.value)
    requires FindIndex(vault.passwords, id) >= 0
    requires var k := FindIndex(vault.passwords, id);
      vault.SaveAccepted(vault.auth.store.items,
                         vault.passwords[k := UpdatedEntry(vault.passwords[k], updates, now)])
    modifies vault, vault.auth.store
    ensures updated.Some? && reloaded.auth.isAuthenticated
    ensures reloaded.passwords == vault.passwords
    ensures var k := FindIndex(old(vault.passwords), id);
      |reloaded.passwords| == |old(vault.passwords)|
      && reloaded.passwords[k] == UpdatedEntry(old(vault.passwords)[k], updates, now)
      && forall j :: 0 <= j < |reloaded.passwords| && j != k ==>
           reloaded.passwords[j] == old(vault.passwords)[j]
  {
    var key := vault.auth.masterKey.value;
    updated := vault.UpdatePassword(id, updates, now);
    assert LoginOutcome(vault.auth.store.items, vault.auth.crypto, password) == LoggedIn(key);
    var session := new AuthSession(vault.auth.store, vault.auth.crypto);
    reloaded := new PasswordVault(session);
    var loggedIn := session.Login(password);
    reloaded.LoadPasswords();
  }
}
