/** The persistent key-value layer (src/utils/storage.js) over the
    browser's localStorage, modelled as a `map<string, string>` that the
    helpers read and update.

    `localStorage.setItem` can throw (the storage quota); whether a write
    goes through is decided by the store's `accepts` function, fixed when the
    store is created, so every write is fallible and deterministic.
    `removeItem` and `getItem` do not fail. Only the `parse = false` reading
    is modelled: every caller of the core passes it, and JSON is not part of
    the model. */
module Storage {
  import opened Common

  type Items = map<string, string>

  const MasterPasswordHashKey := "master_password_hash"
  const SaltKey := "master_password_salt"
  const PasswordsKey := "encrypted_passwords"
  const UserSettingsKey := "encrypted_settings"
  const InitializedKey := "app_initialized"

  /** `Object.values(STORAGE_KEYS)`, in declaration order. */
  const StorageKeys: seq<string> :=
    [MasterPasswordHashKey, SaltKey, PasswordsKey, UserSettingsKey, InitializedKey]

  /** The five keys are pairwise distinct. */
  lemma StorageKeysDistinct()
    ensures |StorageKeys| == 5
    ensures forall i, j :: 0 <= i < j < |StorageKeys| ==> StorageKeys[i] != StorageKeys[j]
  {
  }

  /** `getItem` followed by `if (!data) return null`: absent keys and empty
      strings read as `null`. */
  function Lookup(items: Items, key: string): (r: Option<string>)
    ensures r.None? <==> key !in items || items[key] == ""
    ensures r.Some? ==> key in items && r.value == items[key] && r.value != ""
  {
    if key in items && items[key] != "" then Some(items[key]) else None
  }

  /** The store after one `setItem`: unchanged when the write is refused. */
  function Write(items: Items, accepts: (Items, string, string) -> bool,
                 key: string, value: string): Items
  {
    if accepts(items, key, value) then items[key := value] else items
  }

  /** The store with the five application keys removed. */
  function ClearedItems(items: Items): Items
  {
    items - set k | k in StorageKeys
  }

  /** Every write goes through (no quota is ever exceeded). */
  ghost predicate AcceptsAll(accepts: (Items, string, string) -> bool)
  {
    forall m, k, v :: accepts(m, k, v)
  }

  /** The store after `saveMasterPasswordHash(h, s)`: hash, salt, then the
      initialized flag, each write independently refusable. */
  function SavedHashItems(items: Items, accepts: (Items, string, string) -> bool,
                          h: string, s: string): Items
  {
    Write(Write(Write(items, accepts, MasterPasswordHashKey, h), accepts, SaltKey, s),
          accepts, InitializedKey, "true")
  }

  /** Writing a non-empty string then reading the key returns that string;
      other keys read as before. */
  lemma ReadAfterWrite(items: Items, key: string, value: string, other: string)
    requires value != "" && other != key
    ensures Lookup(items[key := value], key) == Some(value)
    ensures Lookup(items[key := value], other) == Lookup(items, other)
  {
  }

  class Store {
    var items: Items
    const accepts: (Items, string, string) -> bool

    constructor (initial: Items, accepts: (Items, string, string) -> bool)
      ensures items == initial && this.accepts == accepts
    {
      items := initial;
      this.accepts := accepts;
    }

    /** `saveToStorage(key, data)` for a string `data`. */
    method SaveToStorage(key: string, data: string) returns (ok: bool)
      modifies this
      ensures ok == accepts(old(items), key, data)
      ensures items == Write(old(items), accepts, key, data)
      ensures ok && data != "" ==> Lookup(items, key) == Some(data)
      ensures forall k :: k != key ==> Lookup(items, k) == Lookup(old(items), k)
    {
      ok := accepts(items, key, data);
      if ok {
        items := items[key := data];
      }
    }

    /** `getFromStorage(key, false)`. */
    method GetFromStorage(key: string) returns (data: Option<string>)
      ensures data == Lookup(items, key)
      ensures data.None? <==> key !in items || items[key] == ""
    {
      if key in items && items[key] != "" {
        data := Some(items[key]);
      } else {
        data := None;
      }
    }

    /** `removeFromStorage(key)`. */
    method RemoveFromStorage(key: string) returns (ok: bool)
      modifies this
      ensures ok && items == old(items) - {key}
      ensures Lookup(items, key) == None
    {
      items := items - {key};
      ok := true;
    }

    /** `clearAllData`: removes the five application keys one by one and
      leaves every other key as it was. */
    method ClearAllData() returns (ok: bool)
      modifies this
      ensures ok
      ensures items == ClearedItems(old(items))
      ensures forall k :: k in StorageKeys ==> k !in items
      ensures forall k :: k !in StorageKeys && k in old(items) ==> k in items && items[k] == old(items)[k]
    {
      var i := 0;
      while i < |StorageKeys|
        invariant 0 <= i <= |StorageKeys|
        invariant items == old(items) - set k | k in StorageKeys[..i]
      {
        items := items - {StorageKeys[i]};
        assert StorageKeys[..i + 1] == StorageKeys[..i] + [StorageKeys[i]];
        i := i + 1;
      }
      assert StorageKeys[..i] == StorageKeys;
      ok := true;
    }

    /** `isAppInitialized`: the flag key holds a non-empty string. */
    method IsAppInitialized() returns (initialized: bool)
      ensures initialized <==> InitializedKey in items && items[InitializedKey] != ""
    {
      var flag := GetFromStorage(InitializedKey);
      initialized := flag.Some?;
    }

    /** `markAppInitialized`: writes `'true'` to the flag key (a refused
      write is ignored). */
    method MarkAppInitialized()
      modifies this
      ensures items == Write(old(items), accepts, InitializedKey, "true")
    {
      var _ := SaveToStorage(InitializedKey, "true");
    }

    /** `saveMasterPasswordHash(hash, salt)`: three writes whose outcomes
      are ignored. */
    method SaveMasterPasswordHash(passwordHash: string, salt: string)
      modifies this
      ensures items == SavedHashItems(old(items), accepts, passwordHash, salt)
    {
      var _ := SaveToStorage(MasterPasswordHashKey, passwordHash);
      var _ := SaveToStorage(SaltKey, salt);
      MarkAppInitialized();
    }

    /** `getMasterPasswordHash`. */
    method GetMasterPasswordHash() returns (passwordHash: Option<string>)
      ensures passwordHash == Lookup(items, MasterPasswordHashKey)
    {
      passwordHash := GetFromStorage(MasterPasswordHashKey);
    }

    /** `getSalt`. */
    method GetSalt() returns (salt: Option<string>)
      ensures salt == Lookup(items, SaltKey)
    {
      salt := GetFromStorage(SaltKey);
    }

    /** `savePasswords(encryptedData)`. */
    method SavePasswords(encryptedData: string) returns (ok: bool)
      modifies this
      ensures ok == accepts(old(items), PasswordsKey, encryptedData)
      ensures items == Write(old(items), accepts, PasswordsKey, encryptedData)
      ensures ok && encryptedData != "" ==> Lookup(items, PasswordsKey) == Some(encryptedData)
    {
      ok := SaveToStorage(PasswordsKey, encryptedData);
    }

    /** `getPasswords`. */
    method GetPasswords() returns (encryptedData: Option<string>)
      ensures encryptedData == Lookup(items, PasswordsKey)
    {
      encryptedData := GetFromStorage(PasswordsKey);
    }

    /** `saveSettings(encryptedSettings)`. */
    method SaveSettings(encryptedSettings: string) returns (ok: bool)
      modifies this
      ensures ok == accepts(old(items), UserSettingsKey, encryptedSettings)
      ensures items == Write(old(items), accepts, UserSettingsKey, encryptedSettings)
    {
      ok := SaveToStorage(UserSettingsKey, encryptedSettings);
    }

    /** `getSettings`. */
    method GetSettings() returns (encryptedSettings: Option<string>)
      ensures encryptedSettings == Lookup(items, UserSettingsKey)
    {
      encryptedSettings := GetFromStorage(UserSettingsKey);
    }
  }

  /** After `saveMasterPasswordHash(h, s)` on a store that takes every
      write, the hash and salt read back as written, the app reads as
      initialized, and the stored vault blob is untouched. */
  lemma SaveMasterPasswordHashReadsBack(items: Items, accepts: (Items, string, string) -> bool,
                                        h: string, s: string)
    requires AcceptsAll(accepts) && h != "" && s != ""
    ensures Lookup(SavedHashItems(items, accepts, h, s), MasterPasswordHashKey) == Some(h)
    ensures Lookup(SavedHashItems(items, accepts, h, s), SaltKey) == Some(s)
    ensures Lookup(SavedHashItems(items, accepts, h, s), InitializedKey) == Some("true")
    ensures Lookup(SavedHashItems(items, accepts, h, s), PasswordsKey) == Lookup(items, PasswordsKey)
  {
  }

  /** Whatever the store accepts, saving the hash never touches the vault
      blob or the settings. */
  lemma SaveMasterPasswordHashKeepsData(items: Items, accepts: (Items, string, string) -> bool,
                                        h: string, s: string)
    ensures var after := SavedHashItems(items, accepts, h, s);
            Lookup(after, PasswordsKey) == Lookup(items, PasswordsKey)
            && Lookup(after, UserSettingsKey) == Lookup(items, UserSettingsKey)
  {
  }
}
