# Password manager vault logic in Dafny

This project models the core of a local, browser-based password manager. The
user sets a master password. Its SHA-256 hash and a random salt are kept in
`localStorage`. A key derived from the password and the salt (PBKDF2)
encrypts the list of credential entries, which is stored as one AES blob.

The model covers seven parts of that core:

- the validation helpers;
- the two password-strength meters and the two password generators;
- the avatar hash of a list row;
- the storage layer, as a class over a `map<string, string>`;
- the authentication session, as a state-machine class over that store;
- the credential collection, as a class holding a `seq<Entry>`;
- the search-and-sort effect of the list screen.

Modules, one per source file:

| module | file | source |
|---|---|---|
| `Common` | `common.dfy` | JavaScript value and character helpers (truthiness, ASCII case, ECMAScript whitespace) |
| `Entries` | `entries.dfy` | entry records and the list operations of `src/context/PasswordContext.jsx` |
| `Validation` | `validation.dfy` | `src/utils/validation.js` |
| `PasswordUtils` | `password_utils.dfy` | `src/utils/passwordUtils.js` |
| `PasswordGenerator` | `password_generator.dfy` | `src/components/PasswordGenerator/PasswordGenerator.jsx` |
| `PasswordItem` | `password_item.dfy` | `src/components/PasswordList/PasswordItem.jsx` |
| `Storage` | `storage.dfy` | `src/utils/storage.js` |
| `Crypto` | `crypto.dfy` | the interface of `src/utils/crypto.js` (functions taken as given) |
| `AuthContext` | `auth_context.dfy` | `src/context/AuthContext.jsx` |
| `PasswordContext` | `password_context.dfy` | `src/context/PasswordContext.jsx` |
| `PasswordList` | `password_list.dfy` | `src/components/PasswordList/PasswordList.jsx` |

## Modelling conventions

- **Strings.** A JavaScript string is a `seq<char>`. A Dafny `char` is a
  Unicode scalar value, which for text in the Basic Multilingual Plane is
  exactly one UTF-16 code unit; text with characters outside that plane is
  outside the model (see "Left out"). Case mapping (`toLowerCase`, `toUpperCase`) is ASCII only.
  Whitespace (`trim`, `\s`) is the ECMAScript WhiteSpace and LineTerminator
  set.
- **Absent values.** An object key that may be absent, `null` or `undefined`
  is an `Option`. A string is falsy exactly when it is `None` or `""`.
- **Crypto.** The crypto library is a `CryptoSuite` value. It holds four
  arbitrary functions: hash, derive, encrypt and decrypt. Decryption can
  throw, which the model writes as `Fails`. Only three properties are ever
  assumed about the suite, and only by the members that name them:
  - `RoundTrips`: decrypting with the encrypting key gives the entries back;
  - `WrongKeyFails`: decrypting with any other key fails;
  - `CiphertextNonEmpty`: a ciphertext is never the empty string, so a saved
    blob never reads back as missing.
- **Store writes.** `localStorage.setItem` may throw, for example when the
  quota is exceeded. Each `Store` carries a fixed `accepts` function that
  decides whether a given write goes through.
- **Random draws.** The salt, the UUID and the clock readings are parameters.
  So are the results of `Math.random`, given as index sequences.
- **React effects.** Each effect is an explicit method call: the load effect
  of the password context, and the filter-and-sort effect of the list.
  React state setters are field assignments.
- **Numbers.**
  - `Math.floor(unique / length * 30)` is taken as exact integer division.
  - `Math.floor(score / 7 * 100)` is integer division. This is exact: for a
    score of 1 to 6, `100 * score / 7` is at least 1/7 away from an integer.
  - The avatar hash uses unbounded integers, with `ToInt32` written out for
    `<<`. `PasswordItem.HashFitsDouble` shows that every value stays below
    2^53 for titles of up to 4,000,000 characters, so the double arithmetic
    is exact there.

## Model

| member | source | states |
|---|---|---|
| Entries.NewEntry | src/context/PasswordContext.jsx:80-85 | `createdAt` and `updatedAt` are the two clock readings taken for them, which may differ; its id is the UUID unless the draft carries an id, which the later spread lets win; every other field comes from the draft |
| Entries.UpdatedEntry | src/context/PasswordContext.jsx:106-110 | each field present in the updates overrides the previous entry's field, the others are kept; `updatedAt` becomes the clock reading |
| Entries.FindIndex | src/context/PasswordContext.jsx:100 | the first index whose entry has the id, or -1 exactly when no entry has it |
| Entries.FindById | src/context/PasswordContext.jsx:139 | `None` exactly when no entry has the id; otherwise the entry at the first matching index |
| Entries.RemoveId | src/context/PasswordContext.jsx:127 | an entry is kept exactly when it is in the list and does not have the id; the list never grows |
| Entries.RemoveIdConcat | src/context/PasswordContext.jsx:127 | filtering by id distributes over concatenation, so the kept entries stay in their original order |
| Entries.RemoveUnknownId | src/context/PasswordContext.jsx:127 | an id that no entry has leaves the list unchanged |
| Validation.ValidateMasterPassword | src/utils/validation.js:10-54 | valid exactly when present, at least 8 long, with an uppercase letter, a lowercase letter, a digit and a special character; valid exactly when the error is null; each message is reported exactly when its check is the first to fail, in the order length, uppercase, lowercase, digit, special |
| Validation.TrimEmptyIffBlank | src/utils/validation.js:65 | `s.trim() === ''` holds exactly when every character of `s` is whitespace |
| Validation.Missing | src/utils/validation.js:65 | `!v \|\| v.trim() === ''` holds exactly when the field is absent or blank |
| Validation.ValidatePasswordEntry | src/utils/validation.js:61-86 | `title` and `password` are flagged exactly when absent or blank; `url` is flagged exactly when non-empty and rejected by `isValidUrl`; no other key is flagged; valid exactly when no key is flagged |
| Validation.IsValidEmail | src/utils/validation.js:108-111 | an accepted address has at least five characters and neither starts nor ends with `@` (its full meaning is `EmailRegexMeansShape`) |
| Validation.EmailRegexMeansShape | src/utils/validation.js:108-111 | the e-mail regular expression accepts exactly the strings with no whitespace, exactly one `@` with a character before it, and a `.` after the `@` with a character on each side |
| Validation.HexColorIsGroups | src/utils/validation.js:118-120 | a colour is valid exactly when it is `#` followed by one or two groups of three hex digits |
| Validation.HexColorIgnoresCase | src/utils/validation.js:119 | because of the `i` flag, lower-casing a string does not change whether it is accepted |
| Validation.IsValidBackupFile | src/utils/validation.js:127-138 | false when the data or any of `version`, `encrypted`, `salt` is missing or falsy; otherwise true exactly when the version is digits.digits.digits |
| Validation.SemVerOfParts | src/utils/validation.js:135 | any three non-empty digit strings joined by two dots are accepted as a version |
| Validation.SemVerCharset | src/utils/validation.js:135 | an accepted version holds only digits and dots |
| Validation.IsSemVer | src/utils/validation.js:135 | an accepted version has at least five characters and starts and ends with a digit |
| PasswordUtils.NumericRunMeansDigits | src/utils/passwordUtils.js:137-148 | the numeric branch of the sequence check fires exactly on three consecutive ascending digits |
| PasswordUtils.WindowScoredOnce | src/utils/passwordUtils.js:121-149 | no window is counted by both the alphabetic and the numeric branch, so each window adds at most 1 |
| PasswordUtils.CountSequentialChars | src/utils/passwordUtils.js:117-152 | the loop returns the number of windows in which a branch fires; this is at most `max(0, length - 2)` |
| PasswordUtils.CountRepeatedChars | src/utils/passwordUtils.js:159-172 | the loop returns the number of overlapping windows of three equal characters; this is at most `max(0, length - 2)` |
| PasswordUtils.RepeatedOfRun | src/utils/passwordUtils.js:159-172 | a run of `n` equal characters has `max(0, n - 2)` repeated windows; for example "aaaa" counts 2 |
| PasswordUtils.DistinctCharsBounds | src/utils/passwordUtils.js:96 | the set of characters is no larger than the password, and equal in size when no character repeats |
| PasswordUtils.LengthScore | src/utils/passwordUtils.js:82 | the length part lies in [0, 30] |
| PasswordUtils.VarietyScore | src/utils/passwordUtils.js:85-93 | the variety part is a multiple of 10 in [0, 40], and equals 40 exactly when all four character classes are present |
| PasswordUtils.UniquenessScore | src/utils/passwordUtils.js:96-98 | the uniqueness part lies in [0, 30], and equals 30 when all characters are distinct |
| PasswordUtils.Penalty | src/utils/passwordUtils.js:102-107 | each penalty lies in [0, 20], and equals twice the count up to a count of 10 |
| PasswordUtils.CalculatePasswordStrength | src/utils/passwordUtils.js:75-110 | the score lies in [0, 100]; it is 0 for the empty password; otherwise it is the sum of the parts minus the penalties, clamped |
| PasswordUtils.RawScore | src/utils/passwordUtils.js:78-107 | the unclamped score lies in [-40, 100]: it never exceeds 100, so only the clamp at 0 can bind |
| PasswordUtils.GetPasswordStrengthLabel | src/utils/passwordUtils.js:179-191 | the classification is the table entry of the score's band: Very Weak/red below 20, Weak/orange below 40, Medium/yellow below 60, Strong/light-green below 80, and Very Strong/green from 80 |
| PasswordUtils.LabelMonotone | src/utils/passwordUtils.js:179-191 | a higher score never gets a weaker classification; the classification's rank is the score's band, `score / 20` for scores in [0, 80), 0 below and the top rank from 80 |
| PasswordUtils.CharPool | src/utils/passwordUtils.js:21-35 | the pool is never empty; a character is in it exactly when it belongs to a selected set, or to the lowercase set when nothing is selected |
| PasswordUtils.ReplaceAt | src/utils/passwordUtils.js:54 | the substring splice replaces one position inside the string, and yields the single character when the string is empty |
| PasswordUtils.SelectedSetsInPool | src/utils/passwordUtils.js:44-49 | every character of every selected set is in the pool |
| PasswordUtils.DrawFromPool | src/utils/passwordUtils.js:38-42 | one pool character is appended per draw, in draw order |
| PasswordUtils.OverwriteWithInclusions | src/utils/passwordUtils.js:45-55 | the replacements keep every character in the pool; positions no replacement targets keep their drawn character; an empty password grows to one character |
| PasswordUtils.GeneratePassword | src/utils/passwordUtils.js:14-58 | the password has `length` characters (one when the length is at most 0 and a set is selected); all of them come from the pool; every position not overwritten holds its draw |
| PasswordGenerator.CriteriaMet | src/components/PasswordGenerator/PasswordGenerator.jsx:39-50 | at most 7 of the seven criteria hold |
| PasswordGenerator.NormalizedScore | src/components/PasswordGenerator/PasswordGenerator.jsx:53 | a count of 0 to 7 normalises into [0, 100], and reaches 100 only at 7 |
| PasswordGenerator.Strength | src/components/PasswordGenerator/PasswordGenerator.jsx:33-54 | the strength lies in [0, 100]; it is 0 for the empty password; otherwise it is `floor(criteria * 100 / 7)`; it is 100 exactly when all seven criteria hold |
| PasswordGenerator.GetStrengthLabel | src/components/PasswordGenerator/PasswordGenerator.jsx:114-119 | the label is Weak, Fair, Good or Strong as the strength is below 25, below 50, below 75, or at least 75 (the strength in quarters of 100, clamped) |
| PasswordGenerator.GetStrengthColor | src/components/PasswordGenerator/PasswordGenerator.jsx:121-126 | the colour is red, orange, yellow or green at the same thresholds 25, 50 and 75 |
| PasswordGenerator.LabelAndColorAgree | src/components/PasswordGenerator/PasswordGenerator.jsx:114-126 | label and colour switch at the same thresholds 25, 50 and 75, so the colour is always the one for the label |
| PasswordGenerator.Charset | src/components/PasswordGenerator/PasswordGenerator.jsx:58-63 | the charset is empty exactly when no set is selected; a character is in it exactly when it belongs to a selected set |
| PasswordGenerator.GeneratePassword | src/components/PasswordGenerator/PasswordGenerator.jsx:56-81 | no charset gives `''`; otherwise the password has `max(0, length)` characters, the `i`-th being the charset character drawn in iteration `i` |
| PasswordItem.ToInt32 | src/components/PasswordList/PasswordItem.jsx:38 | the int32 conversion lies in [-2^31, 2^31), is congruent to its input modulo 2^32, and is the identity in that range |
| PasswordItem.ShiftLeft5 | src/components/PasswordList/PasswordItem.jsx:38 | `hash << 5` is an int32 |
| PasswordItem.HashMagnitude | src/components/PasswordList/PasswordItem.jsx:36-39 | each character moves the hash by at most 2^31 + 0x110000 |
| PasswordItem.HashFitsDouble | src/components/PasswordList/PasswordItem.jsx:36-39 | for titles of up to 4,000,000 characters the hash stays below 2^53, so the double arithmetic is exact |
| PasswordItem.AvatarIndex | src/components/PasswordList/PasswordItem.jsx:41 | `abs(hash) % 12` is always a valid index into the colour table |
| PasswordItem.GetAvatarColor | src/components/PasswordList/PasswordItem.jsx:28-42 | the loop computes the fold of the hash step over the title; the colour is the table entry at its index, so equal titles get equal colours |
| PasswordItem.EmptyTitleColor | src/components/PasswordList/PasswordItem.jsx:36-41 | an empty title hashes to 0 and gets `#4285F4` |
| PasswordItem.GetInitial | src/components/PasswordList/PasswordItem.jsx:23-25 | the initial has at most one character, is empty exactly for an empty title, is never a lowercase letter, and otherwise is the title's first character up to case, so it is that character upper-cased |
| PasswordItem.InitialIgnoresCase | src/components/PasswordList/PasswordItem.jsx:24 | lower-casing the title does not change the initial |
| PasswordItem.GetDomain | src/components/PasswordList/PasswordItem.jsx:6-20 | there is no domain exactly when the URL is missing or empty |
| Storage.StorageKeysDistinct | src/utils/storage.js:7-13 | the five storage keys are pairwise distinct |
| Storage.Lookup | src/utils/storage.js:38-39 | a read gives null exactly when the key is absent or holds the empty string |
| Storage.ReadAfterWrite | src/utils/storage.js:20-45 | after writing a non-empty string, reading that key returns it, and every other key reads as before |
| Storage.Store.SaveToStorage | src/utils/storage.js:20-28 | reports whether the write went through; the key holds the data exactly when it did; every other key is unchanged |
| Storage.Store.GetFromStorage | src/utils/storage.js:36-45 | the unparsed read is null exactly for an absent key or an empty string |
| Storage.Store.RemoveFromStorage | src/utils/storage.js:51-59 | the key is removed, nothing else changes, and the result is true |
| Storage.Store.ClearAllData | src/utils/storage.js:65-75 | the loop removes exactly the five application keys and leaves every other key and value untouched |
| Storage.Store.IsAppInitialized | src/utils/storage.js:81-83 | true exactly when `app_initialized` holds a non-empty string |
| Storage.Store.MarkAppInitialized | src/utils/storage.js:88-90 | writes `'true'` to the flag key, if the store accepts it |
| Storage.Store.SaveMasterPasswordHash | src/utils/storage.js:97-101 | writes the hash, then the salt, then the flag, each write independently refusable |
| Storage.SaveMasterPasswordHashReadsBack | src/utils/storage.js:97-117 | when every write goes through, the hash and salt read back as written, the app reads as initialized, and the entry blob is untouched |
| Storage.SaveMasterPasswordHashKeepsData | src/utils/storage.js:97-101 | whatever the store accepts, saving the hash never changes the entry blob or the settings |
| Storage.Store.GetMasterPasswordHash | src/utils/storage.js:107-109 | the stored hash, or null |
| Storage.Store.GetSalt | src/utils/storage.js:115-117 | the stored salt, or null |
| Storage.Store.SavePasswords | src/utils/storage.js:123-125 | writes the blob under `encrypted_passwords`; when the write goes through, a non-empty blob reads back unchanged |
| Storage.Store.GetPasswords | src/utils/storage.js:131-133 | the stored blob, or null |
| Storage.Store.SaveSettings | src/utils/storage.js:139-141 | writes the settings blob under `encrypted_settings`, if the store accepts it |
| Storage.Store.GetSettings | src/utils/storage.js:147-149 | the stored settings blob, or null |
| AuthContext.LoginOutcome | src/context/AuthContext.jsx:69-102 | login fails as not initialized exactly when the hash or salt is missing; it succeeds exactly when the salt is present and the hash of the password equals the stored hash; on success the key is derived from the password and the stored salt |
| Crypto.VerifyMasterPassword | src/utils/crypto.js:56-59 | an input verifies exactly when a hash is stored and it equals the input's hash: a missing stored hash (`null`) never verifies, a verified input hashes to the stored hash, and an input whose hash is stored verifies |
| AuthContext.SetupThenLogin | src/context/AuthContext.jsx:39-102 | after setup, when every write goes through, a password logs in exactly when its hash equals that of the setup password, and the setup password gets the same key as at setup |
| AuthContext.ResetThenNotInitialized | src/context/AuthContext.jsx:111-123 | after the reset wipes the store, every login fails as not initialized and the app reads as not initialized |
| AuthContext.AuthSession.constructor | src/context/AuthContext.jsx:21-36 | the session starts logged out, with no key and no error; `isInitialized` is read from the store |
| AuthContext.AuthSession.SetupMasterPassword | src/context/AuthContext.jsx:39-66 | always succeeds, even when the app was already initialized; writes the hash and the salt, and writes the initialized flag twice; sets the key derived from the password and the salt; the session is initialized and authenticated with no error |
| AuthContext.AuthSession.Login | src/context/AuthContext.jsx:69-102 | succeeds exactly as `LoginOutcome` decides; on failure sets the matching message and leaves the key and the flags unchanged; on success sets the derived key, authenticates and clears the error; never writes the store |
| AuthContext.AuthSession.Logout | src/context/AuthContext.jsx:105-108 | logs out and forgets the key; the store, the initialized flag and the error are unchanged |
| AuthContext.AuthSession.ResetApp | src/context/AuthContext.jsx:111-123 | removes the five application keys; clears both flags and the key; leaves the error; returns true |
| AuthContext.AuthSession.ChangeMasterPassword | src/context/AuthContext.jsx:126-157 | succeeds exactly when the current password's hash equals the stored hash. On failure only the error changes. On success the new hash and salt are saved, the key is re-derived and the error cleared. The session flags are not consulted, and the entry blob is not rewritten |
| AuthContext.ReencryptedItems | src/context/AuthContext.jsx:126-157 | the corrected change's rewrite of the entry blob: without a blob nothing changes; no other key is ever touched |
| AuthContext.AuthSession.ChangeMasterPasswordKeepingVault | src/context/AuthContext.jsx:126-157 | the corrected change: it succeeds exactly when the current password verifies and the blob can be re-encrypted under the new key. On success the blob is rewritten before the hash and salt are saved. On failure the store and the key are unchanged |
| AuthContext.AuthSession.ClearError | src/context/AuthContext.jsx:171 | clears the error and nothing else |
| AuthContext.SetupLogoutLogin | src/context/AuthContext.jsx:39-108 | on the live session: setup, logout, then login with the same password succeeds and restores the same key, because the salt is reused |
| PasswordContext.LoadOutcome | src/context/PasswordContext.jsx:17-48 | the list is cleared exactly when there is no session or no key; loading fails exactly when a stored blob fails to decrypt; no blob gives the empty list; a non-empty result is what the blob decrypts to |
| PasswordContext.PasswordVault.constructor | src/context/PasswordContext.jsx:12-14 | the list starts empty with no error |
| PasswordContext.PasswordVault.LoadPasswords | src/context/PasswordContext.jsx:17-48 | with no session the list is emptied and the error kept; a failed decryption keeps the list and sets "Failed to load passwords"; otherwise the list becomes the decrypted entries (empty for no blob or a falsy result) and the error is cleared |
| PasswordContext.PasswordVault.SavePasswordsToStorage | src/context/PasswordContext.jsx:51-75 | succeeds exactly when there is a key and the store accepts the encrypted blob; then the list becomes the new entries, the blob is their encryption under the key, and the error is cleared. Without a key or on a refused write, the list and the store are unchanged and the error is "Failed to save passwords" |
| PasswordContext.PasswordVault.AddPassword | src/context/PasswordContext.jsx:78-95 | succeeds exactly when the list with the stamped entry appended can be saved; then that entry is returned and appended at the end, the stored blob is the new list under the key, and the error is cleared; on failure the list and the store are unchanged and the error is "Failed to save passwords" |
| PasswordContext.PasswordVault.UpdatePassword | src/context/PasswordContext.jsx:98-122 | an unknown id returns null with the list and the store unchanged and the error "Failed to update password"; for a known id it succeeds exactly when the list with the first entry of that id replaced, at its index, by the merged and restamped entry can be saved, and then the list and the stored blob are that list and the error is cleared; a refused save changes nothing but the error |
| PasswordContext.UpdateTouchesOneEntry | src/context/PasswordContext.jsx:112-113 | the index assignment keeps the length and every other entry |
| PasswordContext.PasswordVault.DeletePassword | src/context/PasswordContext.jsx:125-135 | succeeds exactly when the list without the entries having the id, in order, can be saved; then the list and the stored blob are that list and the error is cleared, and an unknown id leaves the same list; on failure the list and the store are unchanged and the error is "Failed to save passwords" |
| PasswordContext.PasswordVault.GetPasswordById | src/context/PasswordContext.jsx:138-140 | null exactly when no entry has the id; otherwise the first entry with that id |
| PasswordContext.PasswordVault.ClearError | src/context/PasswordContext.jsx:151 | clears the error and keeps the list |
| PasswordContext.SaveThenLoad | src/context/PasswordContext.jsx:17-75 | when decryption inverts encryption, entries saved under a key load back unchanged in a session with that key |
| PasswordContext.ChangeStrandsVault | src/context/AuthContext.jsx:126-157 | after the as-written change from `p1` to `p2`, `p2` logs in, but the stored entries no longer decrypt under its key, and `p1` is refused |
| PasswordContext.ReencryptingChangeKeepsVault | src/context/AuthContext.jsx:126-157 | after the corrected change, `p2` logs in and loading gives back exactly the entries stored under the old key |
| PasswordContext.ChangeLogoutLogin | src/context/AuthContext.jsx:126-157 | on the live objects: as-written change, logout, login with the new password; the session is open, yet the list is empty and the load error is set |
| PasswordContext.ChangeKeepingVaultLogoutLogin | src/context/AuthContext.jsx:126-157 | the same sequence with the corrected change ends with the list equal to the stored entries and no error |
| PasswordContext.AddLogoutLogin | src/context/PasswordContext.jsx:17-95 | on the live objects, in an open session whose password logs in to its key: add, log out, log in again; the reloaded list is the old list with the new entry at the end, with no error |
| PasswordContext.DeleteRestartReload | src/context/PasswordContext.jsx:17-135 | delete, then a new session and collection over the same store log in with the same password and load; the loaded list equals the list the deletion left, and no entry with the id comes back |
| PasswordContext.UpdateRestartReload | src/context/PasswordContext.jsx:17-122 | update a known id, then restart over the same store: the loaded list equals the in-memory one, with the updated entry at its index and every other entry as before |
| PasswordList.NotAfterTransitive | src/components/PasswordList/PasswordList.jsx:55-60 | when the keys compare, "not after" under the comparator is transitive; the sort's correctness rests on this |
| PasswordList.SortEntries | src/components/PasswordList/PasswordList.jsx:35-61 | the sort returns a permutation of its input |
| PasswordList.SortedWhenKeysDefined | src/components/PasswordList/PasswordList.jsx:35-61 | when every key compares, the result is in comparator order: non-decreasing keys for `asc`, non-increasing for any other direction |
| PasswordList.StrictWhenKeysDistinct | src/components/PasswordList/PasswordList.jsx:55-60 | with pairwise-distinct keys the order is strict |
| PasswordList.AscendingMeansIncreasing | src/components/PasswordList/PasswordList.jsx:55-57 | in strict `asc` order, later entries have strictly greater keys |
| PasswordList.OtherOptionSortsByUpdatedAt | src/components/PasswordList/PasswordList.jsx:39-52 | any sort option other than `title` and `createdAt` sorts exactly as `updatedAt` does |
| PasswordList.FilterEntries | src/components/PasswordList/PasswordList.jsx:24-31 | an entry is kept exactly when its lower-cased title, or a present username, email, url or notes field, contains the lower-cased term; no entry is kept more often than it occurs |
| PasswordList.FilterConcat | src/components/PasswordList/PasswordList.jsx:25-31 | the filter distributes over concatenation, so kept entries stay in order |
| PasswordList.Filtered | src/components/PasswordList/PasswordList.jsx:20-32 | an empty search term keeps every entry; otherwise exactly the matching entries are kept |
| PasswordList.Toggled | src/components/PasswordList/PasswordList.jsx:74-76 | the new direction is `asc` or `desc`, and differs from the old one |
| PasswordList.ToggleTwice | src/components/PasswordList/PasswordList.jsx:74-76 | toggling twice restores `asc` or `desc` |
| PasswordList.ListView.constructor | src/components/PasswordList/PasswordList.jsx:9-13 | the screen starts with an empty term, sorted by `updatedAt`, descending |
| PasswordList.ListView.SetSearchTerm | src/components/PasswordList/PasswordList.jsx:66-68 | sets the term and nothing else |
| PasswordList.ListView.SetSortOption | src/components/PasswordList/PasswordList.jsx:70-72 | sets the option and nothing else |
| PasswordList.ListView.ToggleSortDirection | src/components/PasswordList/PasswordList.jsx:74-76 | swaps the direction and nothing else |
| PasswordList.ListView.RefreshResults | src/components/PasswordList/PasswordList.jsx:19-64 | completes exactly when no missing title gets lower-cased. When it completes, the displayed list is a permutation of the filtered entries: exactly the matching ones. It is in comparator order when all keys compare, and strictly so when they are distinct. When it throws, the displayed list is unchanged |

## Left out

- Crypto internals (`src/utils/crypto.js`). SHA-256, PBKDF2, AES passphrase mode and `generateSalt` are a foreign library. They are functions held in a `CryptoSuite`, and the salt is a parameter.
- JSON. `JSON.stringify` and `JSON.parse` in the storage and crypto helpers are not modelled. The store holds strings, and `getFromStorage` is modelled only with `parse = false`, which is how every caller in the core reads.
- URL parsing. `isValidUrl` is a parameter of `ValidatePasswordEntry`, because it depends on the URL constructor. So is the hostname extraction in `getDomain`; only its missing-URL case is modelled exactly.
- Random draws. `Math.random` in both generators is replaced by index sequences supplied as input.
- `generateUUID` and `getRandomChar` (`src/utils/passwordUtils.js:65-68, 212-217`) only make random draws, so they are not modelled. `checkPasswordBreaches` is a constant `false` placeholder and is not modelled either.
- PasswordUtils.GeneratePassword: the "one character from each selected set" comment is not claimed. Later replacements can overwrite earlier ones, and the contract states only what the code guarantees.
- Floating point. The uniqueness ratio is exact integer division in the model, so `PasswordUtils.UniquenessScore` can differ from the double result by one where `unique / length * 30` rounds just below an integer.
- Dates. Timestamps are integer clock readings, not ISO strings; a missing one stands for an invalid date. Locale date formatting is not modelled.
- Unicode case mapping. It is ASCII only; characters such as `ß` that change length when upper-cased are outside the model.
- Text outside the Basic Multilingual Plane. A character such as an emoji is one `char` here but two UTF-16 code units in JavaScript, so `.length`, `charCodeAt`, `charAt` and string `<` differ for such text. The members that depend on this are `Validation.ValidateMasterPassword` (the length check), `PasswordUtils.LengthScore` and `PasswordUtils.CalculatePasswordStrength`, `PasswordUtils.CountSequentialChars`, `PasswordGenerator.CriteriaMet` (the length checks), `PasswordItem.GetAvatarColor` (the hash over `charCodeAt`), `PasswordItem.GetInitial` and `PasswordList.SortEntries` (title order). Those members describe only text inside the plane. `PasswordUtils.DistinctCharsBounds` matches the source for all text, because `new Set(string)` iterates code points.
- Validation.IsValidBackupFile: the backup fields are modelled as optional strings only. The source's truthiness test also admits a truthy value of another type, such as a number in `encrypted`; such values are outside the model, and so is the string conversion `RegExp.prototype.test` applies to a `version` that is not a string.
- Entries.NewEntry and PasswordContext.PasswordVault.AddPassword: each timestamp is an integer clock reading passed in as a parameter (`created`, `updated`), one per `new Date()` call; their relation (equal or a millisecond apart) is not constrained, because the clock is outside the model.
- AuthContext.AuthSession.ChangeMasterPasswordKeepingVault: the corrected change is not atomic. It rewrites the blob first, and `saveMasterPasswordHash` ignores a refused write. So a store that refuses the later hash or salt write leaves a new-key blob beside the old hash. The store offers no transaction to roll back with, so `PasswordContext.ReencryptingChangeKeepsVault` assumes a store that takes every write.
- React plumbing. Hook re-run timing, stale closures, `async`/`await`, `isLoading` flags, navigation and the clipboard are not modelled. The load effect and the filter-and-sort effect are explicit method calls.
- Unreachable error branches. The `catch` branches of the two contexts are not modelled, because none of the helpers they call throws. This covers "Failed to set up master password", "Failed to log in", "Failed to reset application", "Failed to add password" and "Failed to delete password". The one exception is `encrypt` throwing on a value `JSON.stringify` rejects, which cannot happen for entry records.
- The sort's tie order. `Array.prototype.sort` is modelled by insertion with the source's comparator. With equal keys, or an invalid date, the comparator is inconsistent and the engine's order is implementation-defined, so the model fixes one order; only permutation is claimed there.
- The sort's comparisons. A missing title is taken to make the title sort throw whenever two or more entries are sorted, as every element gets compared at least once.
- UI screens. Dashboard, Login, SetupMasterPassword, EditPassword, PasswordDetails, Settings, Routes and App are views and are not modelled. The settings screen's password-change and data-wipe flows call a `changePassword` the auth context does not provide, and remove keys that are not storage keys, so they are not modelled as working flows.
- `index.js` is a stand-alone command-line tool (file I/O, a fixed key) and is not part of this model.

## Findings

| source | as written | input that shows it | evidently intended | confidence | as-written member | corrected member |
|---|---|---|---|---|---|---|
| src/context/AuthContext.jsx:126-157 | `changeMasterPassword` saves a new hash and salt and derives a new key, but leaves `encrypted_passwords` encrypted under the old key | set up with `Passw0rd!`, add one entry, change to `N3wPassw0rd!`, log out, log in with `N3wPassw0rd!`: loading fails with "Failed to load passwords" and the list is empty; the old password is now refused | the stored entries are re-encrypted under the new key, so they stay readable after the change | high (the entries become unreachable whenever decryption under a wrong key fails); not executed | AuthContext.AuthSession.ChangeMasterPassword, with PasswordContext.ChangeStrandsVault and PasswordContext.ChangeLogoutLogin | AuthContext.AuthSession.ChangeMasterPasswordKeepingVault, with PasswordContext.ReencryptingChangeKeepsVault and PasswordContext.ChangeKeepingVaultLogoutLogin |
