# XpensFlow core, modelled in Dafny

XpensFlow is a browser expense tracker that keeps its data in IndexedDB and can
encrypt it under a key derived from a PIN. This project models its core and
proves properties of the model:

- **the security manager** (`security.dfy`, over the primitives in `crypto.dfy`):
  - the PIN policy;
  - key derivation, unlock and PIN change;
  - the lock state machine with its auto-lock timer;
  - the encrypted envelope `{iv, data, version}` with its embedded checksum;
  - the integrity cache;
  - config import and export.
- **the database manager** (`database.dfy`, over the object stores in `stores.dfy` and the backup index in `backup_index.dfy`):
  - the five object stores behind the `isInitialized` gate;
  - version adoption and recovery on open;
  - checksummed, optionally encrypted backups and retention of the newest three;
  - restore, import, the automatic-backup rule and the decrypting transaction reader.
- **the application provider** (`app.dfy`):
  - the `appReducer` state machine;
  - the encrypted wrapper record written by `addTransaction`;
  - the `loadBudgets` fold;
  - the decrypt-and-drop filter of `loadTransactions`.
- **keyboard shortcuts** (`shortcuts.dfy`): the shortcut table, the lookup-key construction, the shortcut map, the key-press decision, the help display string and the category grouping.
- **validators** (`validators.dfy`): amount, type, category, passphrase and transaction checks, with `Number`/`parseFloat` modelled as a decimal-numeral scanner.
- **the voice parser** (`voice.dfy`): `parseVoiceInput`, with the regular expression `add\s+(\d+(?:\.\d+)?)\s+(?:dollars?\s+)?(.+)` modelled as a backtracking matcher and proved sound and complete against a declarative description of its matches.

The two managers are classes whose methods update their fields. The database is
a `map` from store name to a sorted sequence of rows, held in a field. The
reducer, the validators, the voice parser and the display and grouping logic
are functions. The loops of the source are methods with loop invariants, each
proved against a specification function:
- the `shortcutMap` fill;
- the `groupedShortcuts` reduce;
- the `loadBudgets` `forEach`;
- the retention deletes;
- the restore refill;
- the two decrypt-and-filter passes.

Some inputs become explicit arguments:
- the wall clock (milliseconds and ISO text);
- the random bytes of salts and ivs;
- the outcome of the platform's open requests.

The pending `setTimeout` is a deadline field that an explicit `Tick(now)` fires.
PBKDF2 (section 5.2 of RFC 8018), AES-GCM (NIST SP 800-38D) and SHA-256
(FIPS 180-4) are symbolic functions with three properties:
- opening with the sealing key and iv gives back the plaintext;
- opening with any other key fails;
- the checksum is injective.

## Model

| member | source | states |
|---|---|---|
| Security.HasDigit | src/core/SecurityManager.js:174 | true exactly when some character of the PIN is an ASCII digit |
| Security.HasLetter | src/core/SecurityManager.js:175 | true exactly when some character of the PIN is an ASCII letter a-z or A-Z |
| Security.IsValidPin | src/core/SecurityManager.js:170-178 | a PIN is accepted exactly when it has at least 6 UTF-16 code units, a digit and a letter |
| Security.PinPolicyExamples | src/core/SecurityManager.js:170-178 | "abc123" is accepted; "abc", "abcdef" and "123456" are rejected |
| Security.ToInt32 | src/core/SecurityManager.js:335-338 | the delay conversion of `setTimeout` gives a signed 32-bit value congruent to its input modulo 2^32 |
| Security.TimerDelay | src/core/SecurityManager.js:335-338 | a delay between 0 and 2^31-1 ms is waited exactly as given |
| Security.AutoLockDelayValues | src/core/SecurityManager.js:335-338 | 0 minutes arms a 0 ms timer; m minutes within the 32-bit range arms m*60000 ms; the default 15 minutes arms 900000 ms |
| Security.RoundTrip | src/core/SecurityManager.js:192-261 | what `encrypt` seals, `decrypt` opens under the same key, giving back the data and the metadata (a falsy metadata comes back undefined); the envelope has a 12-byte iv and version "2.0" |
| Security.WrongKeyFails | src/core/SecurityManager.js:246-250 | an envelope never opens under a key other than the sealing key |
| Security.ChecksumMismatchFails | src/core/SecurityManager.js:255-259 | a payload whose embedded checksum differs from its data's checksum is rejected, although AES-GCM accepts it |
| Security.LegacyPathReturnsPayload | src/core/SecurityManager.js:288-299 | `decryptData` gives back the whole inner payload `{data, timestamp, checksum}`, while `decrypt` gives the data itself |
| Security.SecurityManager.constructor | src/core/SecurityManager.js:10-20 | starts locked with no key, no timer and an empty cache; loads the saved salt, and the saved minutes unless absent or 0 (then 15) |
| Security.SecurityManager.IsInitialized | src/core/SecurityManager.js:31-33 | for a valid manager, initialized exactly when unlocked and exactly when it holds a key; initialized implies a salt |
| Security.SecurityManager.GetState | src/core/SecurityManager.js:35-42 | an initialized state has a salt and a key and is unlocked; for a valid manager, it holds a key exactly when it is unlocked |
| Security.SecurityManager.GetConfig | src/core/SecurityManager.js:387-394 | reports the salt, the minutes, version "2.0" and the activity time, and never the key |
| Security.SecurityManager.ExportConfig | src/core/SecurityManager.js:444-450 | reports the salt, the minutes and version "2.0", with no activity time and never the key |
| Security.SecurityManager.GetStatus | src/core/SecurityManager.js:431-439 | encryption is reported exactly when a salt exists; while locked the cache size is 0 |
| Security.SecurityManager.GenerateSalt | src/core/SecurityManager.js:25-29 | the 16 random bytes become the salt and are returned |
| Security.SecurityManager.SaveSalt | src/core/SecurityManager.js:63-72 | the stored salt becomes the current salt when there is one, and is otherwise left as it was |
| Security.SecurityManager.ResetAutoLock | src/core/SecurityManager.js:330-339 | the one pending timer is replaced by one due after the configured delay |
| Security.SecurityManager.UpdateActivity | src/core/SecurityManager.js:322-325 | records the activity time and re-arms the timer |
| Security.SecurityManager.DeriveKey | src/core/SecurityManager.js:90-143 | the salt (given, current or fresh) is set, and saved when given or fresh, BEFORE the PIN check; a weak PIN then fails with key, lock and timer unchanged; a valid PIN installs PBKDF2(pin, salt), unlocks and re-arms the timer |
| Security.SecurityManager.Unlock | src/core/SecurityManager.js:148-165 | with no salt: "no encryption configured" and nothing changes; otherwise derives with the existing salt, which stays as it was |
| Security.SecurityManager.Lock | src/core/SecurityManager.js:344-355 | drops the key, sets locked, empties the integrity cache and cancels the timer |
| Security.SecurityManager.Tick | src/core/SecurityManager.js:335-338 | the timer fires exactly when its deadline has passed, and firing is `lock()`; otherwise nothing changes |
| Security.SecurityManager.ChangePin | src/core/SecurityManager.js:362-383 | a failed unlock with the old PIN gives "invalid current PIN"; otherwise a fresh salt is set and saved and the new PIN derived; a weak new PIN leaves the new salt with the old key |
| Security.SecurityManager.Encrypt | src/core/SecurityManager.js:183-226 | while locked or keyless it fails and changes nothing; otherwise records activity, re-arms the timer, returns the sealed envelope and caches the envelope's checksum |
| Security.SecurityManager.Decrypt | src/core/SecurityManager.js:231-266 | gated like encrypt; otherwise the result is opening and checksum-checking under the current key, whatever the cache holds |
| Security.SecurityManager.DecryptData | src/core/SecurityManager.js:271-304 | gated like encrypt; otherwise returns the parsed plaintext with no checksum check, and fails when AES-GCM does |
| Security.SecurityManager.SetAutoLockDuration | src/core/SecurityManager.js:398-412 | stores and persists the minutes and re-arms the timer with them even while locked, so 0 fires at once |
| Security.SecurityManager.ImportConfig | src/core/SecurityManager.js:455-463 | a present salt replaces the current one; minutes are taken only when non-zero, so 0 is ignored |
| Security.SecurityManager.ClearAll | src/core/SecurityManager.js:468-473 | locks as `lock()` does and forgets the salt |
| Security.AutoLockScenario | src/core/SecurityManager.js:330-355 | after a PIN is set up at time t with the default 15 minutes, the manager is still initialized at any tick before t + 900000 ms and locked by the tick at t + 900000 ms |
| Security.LockIsIdempotent | src/core/SecurityManager.js:344-355 | locking twice is locking once, and a tick after a lock fires nothing; salt, minutes and activity are unchanged |
| Crypto.OpenSealed | src/core/SecurityManager.js:246-250 | AES-GCM opening with the sealing key and iv gives back the plaintext |
| Crypto.OpenWrongKey | src/core/SecurityManager.js:246-250 | AES-GCM opening with another key fails |
| Crypto.Pbkdf2Injective | src/core/SecurityManager.js:120-131 | derived keys are equal exactly when PIN and salt are equal |
| Crypto.ChecksumInjective | src/core/SecurityManager.js:309-317 | checksums are equal exactly when the values are equal |
| Values.Utf16Length | src/core/SecurityManager.js:171 | `length` counts between one and two UTF-16 code units per character |
| Values.Lower | src/hooks/useVoiceInput.js:56 | `toLowerCase` maps each character, keeping the length |
| Stores.RowValues | src/core/DatabaseManager.js:279-291 | `getAll` returns one value per row, in key order |
| Stores.Find | src/core/DatabaseManager.js:266-277 | `get` finds a value exactly when a row has that key, and the row holds it |
| Stores.UpsertCorrect | src/core/DatabaseManager.js:293-304 | `put` keeps the rows in key order and changes exactly the row under its key |
| Stores.RemoveCorrect | src/core/DatabaseManager.js:306-317 | `delete` keeps the rows in key order and removes exactly the row under its key |
| Stores.UpsertLargest | src/core/DatabaseManager.js:253-264 | a generated key, larger than every key present, appends the row |
| Stores.WriteCorrect | src/core/DatabaseManager.js:253-264 | a write keeps the store valid; on success exactly the written key holds the stored record and nothing else changes; a data error happens exactly when the key is missing or invalid |
| Stores.DeleteCorrect | src/core/DatabaseManager.js:306-317 | a delete succeeds exactly for a valid key, keeps the store valid and removes exactly that key's row |
| Stores.RefillRebuilds | src/core/DatabaseManager.js:397-401 | writing valid rows' records back in order into an emptied store rebuilds exactly those rows, with no failure |
| BackupIndex.Listed | src/core/DatabaseManager.js:412-415 | the index range holds exactly the backups with a string timestamp |
| BackupIndex.ListedSorted | src/core/DatabaseManager.js:412-415 | the listed backups stay in primary-key order |
| BackupIndex.InsertByTsCorrect | src/core/DatabaseManager.js:412-415 | inserting a backup with the smallest key keeps index order and loses no backup |
| BackupIndex.InsertByTsOrdered | src/core/DatabaseManager.js:412-415 | inserting a backup with the smallest key keeps index order (timestamp, then key) |
| BackupIndex.InsertByTsPerm | src/core/DatabaseManager.js:412-415 | inserting adds exactly that backup, as a multiset |
| BackupIndex.SortByTsCorrect | src/core/DatabaseManager.js:412-415 | sorting key-ordered backups by timestamp gives index order and a permutation |
| BackupIndex.ByTimestampCorrect | src/core/DatabaseManager.js:412-415 | `getBackups` lists every indexed backup exactly once, in index order |
| BackupIndex.RemoveKeysCorrect | src/core/DatabaseManager.js:426-429 | deleting keys one after another keeps the order and removes exactly the rows with those keys |
| BackupIndex.CleanupKeepsNewest | src/core/DatabaseManager.js:418-436 | with at most 3 listed backups nothing is deleted; otherwise exactly count-3 are, every deleted one precedes every kept one in index order, and nothing else changes |
| BackupIndex.DoomedPrefix | src/core/DatabaseManager.js:426 | the deleted backups are the first count-3 of the listing, or none when there are at most 3 |
| BackupIndex.DoomedKeys | src/core/DatabaseManager.js:426-429 | a stored row's key is deleted exactly when that row is one of the deleted backups |
| BackupIndex.DoomedBeforeKept | src/core/DatabaseManager.js:423-426 | every deleted backup precedes every kept one in index order |
| BackupIndex.DoomedIds | src/core/DatabaseManager.js:426-428 | the backups to delete are stored rows carrying their key as `id` |
| BackupIndex.DoomedStored | src/core/DatabaseManager.js:428 | a listed backup carries its storage key as `id` |
| Database.BackupRecord | src/core/DatabaseManager.js:331-350 | the checksum is over the plaintext snapshot; `encrypted` is set exactly when a key is used, and then the sealed record replaces `data` |
| Database.AutoBackupThreshold | src/core/DatabaseManager.js:509 | a backup is due with no backup yet; for a plain newest backup, exactly when the count exceeds its transactions + 10; for an encrypted one, exactly when the count exceeds 10 |
| Database.RefillSnapshot | src/core/DatabaseManager.js:389-401 | refilling from a snapshot of valid stores rebuilds their rows without failure and touches no other store |
| Database.RestoreRoundTrip | src/core/DatabaseManager.js:367-409 | an untampered plain backup restores exactly the snapshot's transactions, budgets and settings, and changes no other store |
| Database.EncryptedBackupNeverRestores | src/core/DatabaseManager.js:379-387 | as written, restoring any encrypted backup fails and changes nothing |
| Database.IntendedRestoreRoundTrip | src/core/DatabaseManager.js:376-387 | with the intended decryption, an encrypted backup yields its snapshot and passes the checksum check |
| Database.ReadRowsFacts | src/core/DatabaseManager.js:223-243 | the reader returns at most the stored rows; with no encrypted row it returns them as stored; every result comes from a stored row |
| Database.ReadRowsLength | src/core/DatabaseManager.js:239-243 | the reader never returns more rows than are stored |
| Database.ReadRowsPlain | src/core/DatabaseManager.js:239 | with no row marked encrypted, the reader returns the rows as stored, in order |
| Database.ReadRowsFrom | src/core/DatabaseManager.js:224-243 | every returned row is what the row step makes of some stored row |
| Database.DoomedIdsName | src/core/DatabaseManager.js:426-428 | the `id` of each backup to delete names the key of the matching doomed row, in order |
| Database.GeneratedBackupKey | src/core/DatabaseManager.js:353 | `add` of a backup without `id` takes the generator's key and cannot fail |
| Database.FindAbsent | src/core/DatabaseManager.js:266-277 | a key that `get` does not find has no row |
| Database.SortedFind | src/core/DatabaseManager.js:266-277 | `get` finds what a write put under a key |
| Database.DatabaseManager.constructor | src/core/DatabaseManager.js:7-13 | schema version 3, not initialized, over the stores on disk |
| Database.DatabaseManager.Initialize | src/core/DatabaseManager.js:16-44 | a higher probed version is adopted; a version conflict is recovered by adopting the disk version, with no maintenance; other open failures report and leave it uninitialized; the version never decreases; the data stores are never touched; a normal open runs maintenance, so it records the statistics and leaves the backups store as `MaintainedBackups` (retention, then the automatic backup when due); only an automatic backup sealed by an unlocked manager changes the security manager (`ActiveAt(now)` and one integrity-cache entry), and every other path leaves it unchanged |
| Database.DatabaseManager.HandleVersionError | src/core/DatabaseManager.js:63-79 | recovery adopts the disk version and initializes, returning recovered; a failed recovery changes nothing |
| Database.DatabaseManager.PerformMaintenance | src/core/DatabaseManager.js:485-500 | leaves the three data stores as they were and records the statistics under `database_stats`; the backups store is `MaintainedBackups`: the newest `BackupLimit` are kept, then, when the rule fires on the newest kept backup, the automatic backup of the data stores is added and retention runs again; when that backup is sealed, the security manager is `ActiveAt(now)` and caches the ciphertext's checksum, otherwise it is unchanged; before initialization nothing changes |
| Database.DatabaseManager.UpdateMetadata | src/core/DatabaseManager.js:604-614 | the statistics record is found under `database_stats`; every other store is unchanged |
| Database.DatabaseManager.WriteRecord | src/core/DatabaseManager.js:253-304 | behind the gate, the store becomes exactly what the IndexedDB write gives, or stays as it was on failure |
| Database.DatabaseManager.Add | src/core/DatabaseManager.js:253-264 | `add` fails before initialization; otherwise it is the non-overwriting write |
| Database.DatabaseManager.Put | src/core/DatabaseManager.js:293-304 | `put` fails before initialization; otherwise it is the overwriting write |
| Database.DatabaseManager.GetRecord | src/core/DatabaseManager.js:266-277 | fails before initialization or for an invalid key; otherwise finds the stored row under the key, or none exists |
| Database.DatabaseManager.GetAll | src/core/DatabaseManager.js:279-291 | fails before initialization; otherwise returns every row's value in key order |
| Database.DatabaseManager.GetCount | src/core/DatabaseManager.js:464-475 | fails exactly before initialization; otherwise the number of rows |
| Database.DatabaseManager.Delete | src/core/DatabaseManager.js:306-317 | fails before initialization or for an invalid key; otherwise removes exactly the row under the key |
| Database.DatabaseManager.ClearStore | src/core/DatabaseManager.js:524-535 | fails before initialization; otherwise empties the store, keeping its key generator |
| Database.DatabaseManager.GetBackups | src/core/DatabaseManager.js:412-415 | fails exactly before initialization; otherwise the indexed backups in index order |
| Database.DatabaseManager.GetLastBackup | src/core/DatabaseManager.js:518-521 | fails exactly before initialization; otherwise the newest listed backup, if any |
| Database.DatabaseManager.CleanupOldBackups | src/core/DatabaseManager.js:418-436 | the backups store loses exactly the doomed rows and no other store changes; before initialization nothing changes |
| Database.DatabaseManager.DeleteDoomed | src/core/DatabaseManager.js:427-429 | deleting each backup by its `id` removes exactly the named keys from the backups store |
| Database.DatabaseManager.CreateBackup | src/core/DatabaseManager.js:320-364 | fails before initialization; otherwise adds the backup record under the next generated key, then runs retention; a sealed backup records activity at `now`, re-arms the auto-lock timer and caches the checksum of the envelope stored as `data`, and otherwise the security manager is unchanged |
| Database.DatabaseManager.StoreBackup | src/core/DatabaseManager.js:352-356 | `add` of the record under the generated key, then retention |
| Database.DatabaseManager.CollectBackup | src/core/DatabaseManager.js:325-350 | the backup record of the current snapshot, sealed exactly when the security manager has a salt and is unlocked; sealing records activity at `now`, re-arms the timer and caches the checksum of the envelope under `data`; otherwise the security manager is unchanged |
| Database.DatabaseManager.CreateAutomaticBackupIfNeeded | src/core/DatabaseManager.js:503-515 | backs up exactly when initialized and the rule fires (no backup, or more than the newest backup's transactions + 10); the data stores never change; a sealed backup leaves the security manager active at `now` with the envelope's checksum cached, and otherwise it is unchanged |
| Database.DatabaseManager.WriteEach | src/core/DatabaseManager.js:397-401 | issuing one write per item in order gives the bulk-write state and its first failure, and changes no other store |
| Database.DatabaseManager.WriteNext | src/core/DatabaseManager.js:398-400 | one write, keeping the first failure |
| Database.DatabaseManager.RefillFrom | src/core/DatabaseManager.js:389-401 | clear the three data stores, then refill them from the data, as the refill function states |
| Database.DatabaseManager.RestoreBackup | src/core/DatabaseManager.js:367-409 | restore as the restore function states: missing id, failed decryption and checksum mismatch all fail before any store is cleared; when an encrypted backup reaches `decryptData`, activity is recorded at `now` and the timer re-armed, whatever the outcome; otherwise the security manager is unchanged |
| Database.DatabaseManager.ImportData | src/core/DatabaseManager.js:562-586 | fails before initialization; otherwise clears the three data stores and refills them from `importData.data` |
| Database.DatabaseManager.GetTransactionsWithDecryption | src/core/DatabaseManager.js:215-251 | [] before initialization; the rows as stored unless the flag is on and the manager is initialized; otherwise every row through the decrypt-or-drop step, with activity recorded at `now` exactly when some row carries ciphertext, and the security manager otherwise unchanged |
| Database.DatabaseManager.DecryptRows | src/core/DatabaseManager.js:224-243 | the map and null filter row by row give the reader function's result; the manager is active at `now` when some row carries ciphertext and unchanged otherwise; key, lock, salt and cache are kept |
| App.WithoutId | src/context/AppProvider.jsx:21 | the filter never lengthens the list |
| App.WithoutIdKeeps | src/context/AppProvider.jsx:21 | the filter keeps exactly the transactions whose id differs |
| App.ReduceFrame | src/context/AppProvider.jsx:14-43 | each action changes only its own field of the state |
| App.AddAppends | src/context/AppProvider.jsx:18-19 | ADD_TRANSACTION appends the payload and keeps the earlier transactions in place |
| App.WithoutIdAppend | src/context/AppProvider.jsx:21 | the delete filter distributes over concatenation, so order is kept |
| App.WithoutIdAbsent | src/context/AppProvider.jsx:21 | deleting an id no transaction carries changes nothing |
| App.DeleteRemovesExactly | src/context/AppProvider.jsx:20-21 | DELETE_TRANSACTION keeps exactly the transactions with another id, and is idempotent |
| App.DeleteUndoesAdd | src/context/AppProvider.jsx:18-21 | deleting the id of a freshly added transaction with a new id restores the state |
| App.SetBudgetOnly | src/context/AppProvider.jsx:24-25 | SET_BUDGET sets the category's entry and leaves every other entry as it was |
| App.ToggleTwice | src/context/AppProvider.jsx:28-29 | TOGGLE_THEME flips `darkMode`, so two toggles are the identity |
| App.UnknownIsIdentity | src/context/AppProvider.jsx:40-41 | an unknown action leaves the state as it is |
| App.BudgetObjectKeys | src/context/AppProvider.jsx:214-217 | the budgets object has a property for exactly the categories of the records |
| App.BudgetObjectLastWins | src/context/AppProvider.jsx:214-217 | each category maps to the amount of its last record |
| App.SetBudgetActions | src/context/AppProvider.jsx:24-25 | one SET_BUDGET per record, with that record's category and amount |
| App.BudgetObjectIsReplay | src/context/AppProvider.jsx:213-218 | the fold builds the same object as replaying one SET_BUDGET per record from {} |
| App.LoadRows | src/context/AppProvider.jsx:182-195 | the map step gives one entry per record |
| App.DropFailed | src/context/AppProvider.jsx:198 | the filter never lengthens the list |
| App.DropFailedKeeps | src/context/AppProvider.jsx:198 | the filter keeps exactly the entries without a truthy `decryptionError` |
| App.LoadRowsAt | src/context/AppProvider.jsx:183-194 | each record is loaded in place |
| App.LoadedFacts | src/context/AppProvider.jsx:181-198 | a record whose decryption fails never appears; a plain record appears as stored; every loaded entry comes from a stored record |
| App.Prepared | src/context/AppProvider.jsx:230-234 | the prepared record always has an id and a timestamp, keeps truthy ones and every other field |
| App.Wrapper | src/context/AppProvider.jsx:240-245 | the wrapper has exactly the fields encrypted, data, timestamp and iv |
| App.StoredRecord | src/context/AppProvider.jsx:230-252 | unsealed, the prepared record is stored; sealed, only the wrapper with the ciphertext and the timestamp, and no id |
| App.WrapperTakesGeneratedKey | src/context/AppProvider.jsx:240-252 | the wrapper has no id, so `add` takes a generated key |
| App.WrapperReadBack | src/context/AppProvider.jsx:237-252 | the database reader gives back the prepared transaction with its storage key as id |
| App.LoadRowReturnsPayload | src/context/AppProvider.jsx:184-187 | as written, the loaded entry is the payload `{data, timestamp, checksum, id}`, not the transaction, and differs from what the database reader gives |
| App.ChecksumIsNotItsInput | src/context/AppProvider.jsx:186-187 | no value holds its own checksum as a field |
| App.IntendedLoadRowRoundTrip | src/context/AppProvider.jsx:184-187 | with the intended step, a transaction added under encryption loads back as the prepared transaction with its storage id |
| App.Provider.constructor | src/context/AppProvider.jsx:46-56 | the initial state, with the saved dark-mode preference |
| App.Provider.Dispatch | src/context/AppProvider.jsx:14-43 | the state becomes the reducer's result |
| App.Provider.AddTransaction | src/context/AppProvider.jsx:226-267 | fails while the state says the database is not ready; otherwise stores the (sealed when encryption is on and the manager initialized) record and, on success, dispatches ADD_TRANSACTION with the new id; on failure nothing is added; sealing records activity at `now`, re-arms the timer and caches the envelope's checksum, even when the write then fails; without sealing the security manager is unchanged |
| App.Provider.LoadBudgets | src/context/AppProvider.jsx:210-224 | fails while not ready; otherwise the budgets become the fold of all budget records |
| App.Provider.FoldBudgets | src/context/AppProvider.jsx:214-217 | the `forEach` loop builds the budgets object |
| App.Provider.LoadTransactions | src/context/AppProvider.jsx:176-208 | the transactions become the stored rows, or, when encryption is on and the manager initialized, the loaded rows without the failed ones, with activity recorded at `now` exactly when some record carries ciphertext; otherwise the security manager is unchanged |
| App.Provider.DecryptAll | src/context/AppProvider.jsx:182-195 | the map step record by record; the manager is active at `now` when some record carries ciphertext and unchanged otherwise; key, lock, salt and cache are kept |
| Shortcuts.Upper | src/hooks/useKeyboardShortcuts.js:102 | `toUpperCase` maps each character, keeping the length |
| Shortcuts.FirstCharDiffers | src/hooks/useKeyboardShortcuts.js:108 | a different first character rules out `startsWith` |
| Shortcuts.MissingChar | src/hooks/useKeyboardShortcuts.js:109-111 | a part with a character absent from the action is not included in it |
| Shortcuts.StripPrefix | src/hooks/useKeyboardShortcuts.js:37 | a prefix followed by a rest is stripped back to the rest |
| Shortcuts.Stage | src/hooks/useKeyboardShortcuts.js:37 | each modifier prefix is read back exactly when it was written |
| Shortcuts.LeadingPrefix | src/hooks/useKeyboardShortcuts.js:37 | a later prefix cannot be mistaken for an earlier one |
| Shortcuts.ComboRoundTrip | src/hooks/useKeyboardShortcuts.js:37 | the lookup key gives back the modifiers and the lower-cased key |
| Shortcuts.ComboInjective | src/hooks/useKeyboardShortcuts.js:68 | two combinations share a lookup key exactly when modifiers and lower-cased keys agree |
| Shortcuts.BuildShortcutMap | src/hooks/useKeyboardShortcuts.js:35-39 | the `forEach` fills the map with every table entry under its lookup key |
| Shortcuts.MapOfLookup | src/hooks/useKeyboardShortcuts.js:35-39 | with distinct lookup keys, the map holds exactly those keys, each mapping to its entry |
| Shortcuts.TableKeysLower | src/hooks/useKeyboardShortcuts.js:8-32 | every table key is one character that lower-casing leaves unchanged |
| Shortcuts.TableKeysDistinct | src/hooks/useKeyboardShortcuts.js:8-39 | the table's lookup keys are pairwise distinct |
| Shortcuts.EveryActionReachable | src/hooks/useKeyboardShortcuts.js:8-39 | every action is retrievable from the map by its own lookup key |
| Shortcuts.TypingIsIgnored | src/hooks/useKeyboardShortcuts.js:56-65 | in an INPUT, TEXTAREA or editable element, every key but '/' triggers nothing |
| Shortcuts.RunsOnlyRegistered | src/hooks/useKeyboardShortcuts.js:71-79 | a handler runs only for a mapped key and a registered action |
| Shortcuts.EntryTriggers | src/hooks/useKeyboardShortcuts.js:52-80 | outside editable fields, an event with an entry's modifiers and key runs that entry's action exactly when its handler is registered |
| Shortcuts.DisplayParts | src/hooks/useKeyboardShortcuts.js:96-102 | one part per present modifier, Ctrl first, then the upper-cased key last |
| Shortcuts.DisplayShape | src/hooks/useKeyboardShortcuts.js:95-105 | the display ends with the upper-cased key, and is the key alone without modifiers |
| Shortcuts.JoinTwo | src/hooks/useKeyboardShortcuts.js:104 | two parts join around one separator |
| Shortcuts.JoinThree | src/hooks/useKeyboardShortcuts.js:104 | three parts join around two separators |
| Shortcuts.DisplayPaletteExample | src/hooks/useKeyboardShortcuts.js:10 | the first entry displays as "Ctrl + K" |
| Shortcuts.DisplayDebugExample | src/hooks/useKeyboardShortcuts.js:20 | the debug entry displays as "Ctrl + Shift + D" |
| Shortcuts.DisplayHelpExample | src/hooks/useKeyboardShortcuts.js:21 | the help entry displays as "Shift + ?" |
| Shortcuts.GroupShortcuts | src/hooks/useKeyboardShortcuts.js:107-123 | the `reduce` builds the grouping function's result |
| Shortcuts.GroupedIsPartition | src/hooks/useKeyboardShortcuts.js:107-123 | a group exists exactly when some entry falls in it, and lists exactly those entries in table order |
| Shortcuts.ItemsInCategory | src/hooks/useKeyboardShortcuts.js:108-112 | every item of a group has that group's category |
| Shortcuts.ExactlyOneGroup | src/hooks/useKeyboardShortcuts.js:107-123 | every table action is in the group of its category and in no other |
| Shortcuts.InItemsIn | src/hooks/useKeyboardShortcuts.js:114-120 | each entry's item is in its category's group |
| Shortcuts.NavigationExample | src/hooks/useKeyboardShortcuts.js:108 | GOTO_SETTINGS is Navigation |
| Shortcuts.DebugExamples | src/hooks/useKeyboardShortcuts.js:109 | OPEN_DEBUG and TOGGLE_HELP are Debug |
| Shortcuts.ExportExample | src/hooks/useKeyboardShortcuts.js:110 | EXPORT_DATA is Data |
| Shortcuts.BackupExample | src/hooks/useKeyboardShortcuts.js:110 | CREATE_BACKUP is Data |
| Shortcuts.SecurityExample | src/hooks/useKeyboardShortcuts.js:111 | LOCK_APP is Security |
| Shortcuts.GeneralExamples | src/hooks/useKeyboardShortcuts.js:112 | TOGGLE_THEME and SEARCH fall through to General |
| Validators.SomeNamedIff | src/utils/validators.js:13 | `some` succeeds exactly when the value is the string name of some entry |
| Validators.CategoryIff | src/utils/constants.js:7-18 | a category is valid exactly when it is the name of one of the ten categories |
| Validators.TypeIff | src/utils/validators.js:16-18 | a type is valid exactly for "income" and "expense"; not "Income", not undefined |
| Validators.TrimStart | src/utils/validators.js:5 | removes exactly the leading white space |
| Validators.TrimEnd | src/utils/validators.js:5 | removes exactly the trailing white space |
| Validators.RunChars | src/utils/validators.js:5 | only numeral characters move the reading on |
| Validators.NumeralChars | src/utils/validators.js:5 | a numeral holds numeral characters only |
| Validators.LongestIs | src/utils/validators.js:5 | `parseFloat` takes the longest numeral prefix |
| Validators.BlankHasNoNumeral | src/utils/validators.js:5 | blank text has no numeral prefix |
| Validators.ForeignCharEndsNumeral | src/utils/validators.js:5 | text with a foreign character is not a numeral |
| Validators.ParseFloatOfNumeral | src/utils/validators.js:5 | a numeral followed by white space reads as the numeral |
| Validators.AmountOfNumber | src/utils/validators.js:4-6 | a number is a valid amount exactly when it is positive |
| Validators.StringAmountReadings | src/utils/validators.js:4-6 | a string is a valid amount exactly when `Number` gives a number and `parseFloat` a positive one |
| Validators.BlankAmount | src/utils/validators.js:4-6 | blank text is not an amount |
| Validators.NumeralAmount | src/utils/validators.js:4-6 | text that trims to a numeral reads as that numeral both ways |
| Validators.StringAmount | src/utils/validators.js:4-6 | a string is a valid amount exactly when, trimmed, it is a positive numeral |
| Validators.NumeralExample | src/utils/validators.js:5 | "0.5" reads as one half |
| Validators.AmountExamples | src/utils/validators.js:4-6 | "0.5" and 12.5 are amounts |
| Validators.RefusedAmountExamples | src/utils/validators.js:4-6 | "-5", "", undefined, null and true are not amounts |
| Validators.TrailingTextExample | src/utils/validators.js:4-6 | "12abc" parses as 12 but is not an amount |
| Validators.PassphraseOfString | src/utils/validators.js:20-22 | a string passphrase is valid exactly when it has 6 UTF-16 units |
| Validators.PinIsPassphrase | src/utils/validators.js:20-22 | every valid PIN is a valid passphrase, but "aaaaaa" is a passphrase and not a PIN |
| Validators.TransactionNeedsObject | src/utils/validators.js:24-32 | a value other than an object is never a valid transaction |
| Validators.AmountField | src/utils/validators.js:27 | the amount check on a present or absent property |
| Validators.CategoryField | src/utils/validators.js:29 | the category check on a present or absent property |
| Validators.TypeField | src/utils/validators.js:30 | the type check on a present or absent property |
| Validators.TransactionOfObject | src/utils/validators.js:24-32 | an object is valid exactly when amount, date, category and type each pass |
| Voice.SpaceRun | src/hooks/useVoiceInput.js:56 | the white space run is maximal |
| Voice.SpaceRunAll | src/hooks/useVoiceInput.js:56 | the white space run is all white space |
| Voice.DigitRun | src/hooks/useVoiceInput.js:56 | the digit run is maximal |
| Voice.DigitRunAll | src/hooks/useVoiceInput.js:56 | the digit run is all digits |
| Voice.LineRun | src/hooks/useVoiceInput.js:56 | `.+` runs up to the first line terminator |
| Voice.LineRunAll | src/hooks/useVoiceInput.js:56 | the `.+` run holds no line terminator |
| Voice.Search | src/hooks/useVoiceInput.js:56 | the first position from p where the pattern matches, or none matches |
| Voice.RestSound | src/hooks/useVoiceInput.js:56 | `(.+)` succeeds exactly on a non-terminator and takes the whole run |
| Voice.WordSpaceSound | src/hooks/useVoiceInput.js:56 | the white space after the currency word backtracks correctly |
| Voice.CurrencySound | src/hooks/useVoiceInput.js:56 | the optional currency group then `(.+)` succeeds exactly on a non-terminator |
| Voice.GapSound | src/hooks/useVoiceInput.js:56 | the white space after group 1 backtracks correctly |
| Voice.CurrencyFits | src/hooks/useVoiceInput.js:56 | a successful currency stage lays out the tail correctly |
| Voice.NumberAtFits | src/hooks/useVoiceInput.js:56 | group 1 from a digit is a number |
| Voice.MatchAtHead | src/hooks/useVoiceInput.js:56 | a match starts with "add" and white space |
| Voice.MatchAtFits | src/hooks/useVoiceInput.js:56 | a match is group 1, white space, the optional currency group and group 2 |
| Voice.NumberThenGapFits | src/hooks/useVoiceInput.js:56 | group 1 then the gap stage give a number and a well-formed tail |
| Voice.MatchAtSteps | src/hooks/useVoiceInput.js:56 | a match passes "add" and white space and starts group 1 at a digit |
| Voice.GapKeepsNumber | src/hooks/useVoiceInput.js:56 | the gap stage keeps group 1 |
| Voice.NumFitsSpan | src/hooks/useVoiceInput.js:56 | group 1 is digits with an optional fraction |
| Voice.MatchAtSound | src/hooks/useVoiceInput.js:56 | what the matcher finds is a way of matching |
| Voice.DigitRunEnds | src/hooks/useVoiceInput.js:56 | a digit run ends at the first non-digit |
| Voice.SpaceRunEnds | src/hooks/useVoiceInput.js:56 | a white space run ends at the first other character |
| Voice.GapLength | src/hooks/useVoiceInput.js:56 | any white space lies within the maximal run |
| Voice.WholeEnds | src/hooks/useVoiceInput.js:56 | digits followed by white space are group 1 |
| Voice.FractionEnds | src/hooks/useVoiceInput.js:56 | digits, '.', digits followed by white space are group 1 |
| Voice.NumberForced | src/hooks/useVoiceInput.js:56 | every way of matching at p has the same group 1 |
| Voice.GapComplete | src/hooks/useVoiceInput.js:56 | the gap stage finds a way whenever one exists |
| Voice.MatchAtComplete | src/hooks/useVoiceInput.js:56 | whenever the pattern can match at p, the matcher finds a match there |
| Voice.MatchAtIff | src/hooks/useVoiceInput.js:56 | the matcher succeeds at p exactly when the pattern can match there |
| Voice.Matched | src/hooks/useVoiceInput.js:56 | the leftmost match has a numeric group 1 and a well-formed tail |
| Voice.RunDigits | src/hooks/useVoiceInput.js:59 | digits read as a non-negative number |
| Voice.ScaleNonNegative | src/hooks/useVoiceInput.js:59 | scaling keeps a value non-negative |
| Voice.RunNumber | src/hooks/useVoiceInput.js:59 | digits, '.', digits read as a non-negative number |
| Voice.NumberSpanNumeral | src/hooks/useVoiceInput.js:59 | group 1 is a numeral with a non-negative value |
| Voice.NoMatchIsNull | src/hooks/useVoiceInput.js:54-64 | the result is null exactly when the pattern matches nowhere in the lower-cased text |
| Voice.LeftmostMatch | src/hooks/useVoiceInput.js:56 | the match used is the leftmost one |
| Voice.ResultShape | src/hooks/useVoiceInput.js:56-62 | the amount is the non-negative value of group 1, which is digits with an optional fraction; the description is group 2 trimmed, up to a line terminator |
| Voice.CurrencyTaken | src/hooks/useVoiceInput.js:56 | "dollar" or "dollars" and white space right after the number are not part of the description |
| Voice.WordFirst | src/hooks/useVoiceInput.js:56 | the currency group takes the word and all the white space after it |
| Voice.GapTakesFirst | src/hooks/useVoiceInput.js:56 | with the maximal white space, the gap stage takes the currency group |
| Voice.CaseInsensitive | src/hooks/useVoiceInput.js:56 | upper and lower case give the same result |

## Left out

- I/O and platform state:
  - `localStorage` is two fields (`storedSalt`, `storedAutoLockMinutes`) that the methods write.
  - `clearSalt` (removal of the stored salt) is not modelled; `clearAll` does not call it.
  - Logging is not modelled.
  - Asynchrony is not modelled: `Promise.all` and `await` are sequential, and the writes of a refill are issued in order.
- The storage statistics, `getStats`, `getStorageStats`, `estimateStoreSize`, `getDiagnostics`, `exportData` and `save/loadSecurityConfig` are not modelled. They are diagnostics or UI plumbing; `updateMetadata` takes the statistics as an argument.
- The IndexedDB open, upgrade and blocked events and the index creation are not modelled. The outcome of the open requests is a set of parameters of `Initialize`.
- Cryptography:
  - The WebCrypto internals are not modelled. Keys are symbolic values, ciphertexts are symbolic terms, and the checksum is an injective function.
  - JSON key order and text encoding are not modelled.
  - `decryptData`'s base64 branch is not modelled: every ciphertext is a value, never a string.
- Security.SecurityManager.Decrypt: the cache lookup only logs in the source. The model leaves it out; the result does not depend on the cache.
- Security.SecurityManager.Encrypt: the model's `encrypt` fails only when locked or keyless. AES-GCM itself never fails on encryption here.
- Database.IdNames and the retention: the sort by `new Date(timestamp)` is modelled by the index order, which compares the timestamp text and then the key. For the ISO timestamps `createBackup` writes, this agrees with the date order, and the stable sort keeps the index order on ties.
- Stores: some key forms are not modelled:
  - IndexedDB keys that are fractional numbers, dates, binary or arrays are outside the model; such a key is a data error.
  - Non-string values at `budgets.category` are therefore rejected.
- App.PropertyKey: property names are approximated. Strings, integers, booleans, null, undefined and plain objects get the name JavaScript gives them. A non-integral number becomes "NaN", where JavaScript gives its decimal text ("1.5"). Arrays, byte arrays and sealed values become "[object Object]", where JavaScript joins their elements. A digest becomes "[object Object]", where JavaScript gives its hex text.
- App.WithoutId: `!==` is compared by value. Two distinct objects with equal content count as equal here.
- Database.ReadRow: the row's `id` is its storage key. Every stored transaction carries it, because its key path is `id`.
- Values.Utf16Length: only the count of code units is modelled, not the encoding.
- Case mapping (`toLowerCase`, `toUpperCase`) is modelled on A-Z only. Other letters are left as they are.
- Validators: number parsing is modelled for decimal numerals with an optional sign, fraction and exponent. Not modelled: `Infinity`, the hexadecimal, octal and binary forms of `Number`, and numbers given as sealed or digest values (these are treated as non-numeric).
- Validators.StringAmount: amounts are exact decimals. JavaScript numbers are doubles, and the model has no rounding, overflow or underflow, and no NaN, Infinity or -0 values. So "1e-400", which `Number` and `parseFloat` read as 0 and the source refuses, is an amount in the model.
- Voice.ResultShape: the amount is the exact value of group 1. `parseFloat` rounds it to a double, and gives Infinity for a group 1 of 400 nines.
- Crypto.ChecksumInjective: the values are model values, not JSON text. Byte arrays, sealed values and digests have constructors of their own, while JavaScript stores them as a plain number array or a hex string. A model value and the number array or string it is written as have one checksum in JavaScript, and two in the model.
- Database.DatabaseManager.ImportData: an encrypted record that comes back as a plain number array, as from an exported file, never opens in the model, while `new Uint8Array(array)` in the source opens it.
- Stores.Bump: the key generator has no cap. IndexedDB's generator fails with a ConstraintError once it passes 2^53.
- Stores.StrLt: string keys are compared by code point. IndexedDB compares UTF-16 code units, so a character outside the Basic Multilingual Plane sorts below U+E000 to U+FFFF there, and above them here.
- App.Prepared: `addTransaction(null)` throws a TypeError in the source, while the model prepares a record from it. Spreading a string or an array gives `{}` in the model, while JavaScript copies their indices.
- Validators.IsValidPassphrase: the source returns a truthy value, not a boolean; the model reads it as a condition.
- Validators.IsValidTransaction: `Date.parse` is a parameter (`isValidDate`).
- Voice: the number part `add\s+(\d+(?:\.\d+)?)` is matched deterministically. Voice.NumberForced proves that every way of matching has that same group 1. The speech-recognition wiring of `startListening` is not modelled.
- Shortcuts.GroupShortcuts is stated for any list of entries. The help hook applies it to the table.

## Findings

| source | as written | input that shows it | evidently intended | confidence | as-written member | corrected member |
|---|---|---|---|---|---|---|
| src/core/DatabaseManager.js:379-387 | restore calls `decryptData(backup.data)` with no iv, so AES-GCM gets an empty iv and fails; without an initialized security manager, the checksum of the stored envelope is compared with the plaintext checksum | any backup made while the security manager was unlocked | open the envelope with `decrypt` (it carries its own iv) and checksum the recovered snapshot | not executed | Database.EncryptedBackupNeverRestores | Database.IntendedRestoreRoundTrip |
| src/context/AppProvider.jsx:184-187 | `loadTransactions` spreads the whole decrypted payload `{data, timestamp, checksum}` into the loaded entry, so the transaction fields sit under `data` | any transaction added while encryption is on, then reloaded | spread the decrypted transaction itself with its storage id, as the database reader does | not executed | App.LoadRowReturnsPayload | App.IntendedLoadRowRoundTrip |
