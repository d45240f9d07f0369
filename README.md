# Encrypted school records: store, confirmation codes and cipher framing

A Dafny model of the three pieces of logic under the Tkinter front end of a small
application that keeps personal data of students, teachers and parents encrypted
under a password:

- **Record store** (`record_store.dfy`, module `RecordStore`): the `DatabaseManager`
  class. Its table of `{id, type, description, encrypted_data, created_at, updated_at}`
  records is a `seq<Record>` field. A ghost counter `writes` counts the whole-table
  rewrites that the source does on its JSON file. Ids follow the source's rule,
  "record count + 1". The lemma `DeleteThenAddReusesId` and the method
  `AddDeleteAddScenario` show that this rule hands out an id that is still in use
  after a record other than the last one is deleted.
- **Confirmation codes and messenger settings** (`code_verification.dfy`, module
  `Messenger`): the `CodeVerification` class holds its code table as a `map` field.
  The pure function `Verify` describes the four outcomes of a check: not found,
  expired (entry removed), operation mismatch (entry kept) and confirmed (entry
  removed). `Sweep` describes the cleanup. `MaxMessenger` covers the "enabled" test
  and the recipient fallback.
- **Cipher framing and validation** (`personal_data.dfy`, module `PersonalData`;
  `validation.dfy`, module `DataValidation`): the reserved `_encrypted_at` key, the
  wrapping of every decoding failure into one `ValueError`, key derivation from the
  password alone, and the required-field checks.

Fernet, PBKDF2-HMAC-SHA-256, base64, JSON and UTF-8 are function-valued fields of a
`Primitives` value. The only thing assumed about them is `RoundTrips`: each decoder
undoes its encoder. Every lemma that relies on it takes it as a precondition.

The clock is an explicit parameter. Codes use whole seconds (`now`), and the store
and the cipher use the ISO time strings the source writes. The secure random digit
choices and the cipher's per-call randomness are also parameters.

Three facts about the code that the model keeps as they are:

- Ids are "record count + 1". They stop being unique after a record other than the last one is deleted. `DeleteThenAddReusesId` proves the collision.
- A delete removes every record carrying the id. An update changes only the first match.
- The reserved timestamp key is `_encrypted_at`. Encryption writes it into the caller's dictionary, and decryption strips it.

The encryption key is `GenerateKey` of the password. That is PBKDF2-HMAC-SHA-256 over the password's UTF-8 bytes, with the fixed salt `SALT` ("school_data_protection_2024"), `ITERATIONS` = 100000 and `KEY_LENGTH` = 32 bytes, then URL-safe base64. No other input enters the key, so the same password always gives the same key.

## Model

| member | source | states |
|---|---|---|
| `RecordStore.DatabaseManager.constructor` | database_manager.py:14-22 | opening the store leaves a file in place: the table on disk, or a new empty table written once |
| `RecordStore.DatabaseManager.EnsureExists` | database_manager.py:24-28 | creates an empty table (one write) only when there is no file; otherwise nothing changes, so a second call is a no-op |
| `RecordStore.DatabaseManager.AddRecord` | database_manager.py:30-56 | appends exactly one record at the end with id = previous count + 1 and the two clock readings; earlier records unchanged; returns the id; one write |
| `RecordStore.DatabaseManager.GetAllRecords` | database_manager.py:58-68 | returns the table in storage order |
| `RecordStore.DatabaseManager.GetRecord` | database_manager.py:70-84 | None exactly when no record has the id; otherwise the first record carrying it |
| `RecordStore.IndexOfId` | database_manager.py:80-84 | the position found carries the id and no earlier record does; none found exactly when no record carries it |
| `RecordStore.DatabaseManager.DeleteRecord` | database_manager.py:86-107 | the table becomes the records with another id, in order; returns true exactly when it got shorter, which is exactly when the id was present; writes only then |
| `RecordStore.WithoutSpec` | database_manager.py:99-102 | deletion keeps exactly the records with a different id, never lengthens the table, and shortens it exactly when the id is present |
| `RecordStore.WithoutAbsent` | database_manager.py:100-107 | deleting an id no record carries leaves the table's contents and length unchanged |
| `RecordStore.WithoutConcat` | database_manager.py:100 | deletion distributes over concatenation, so the kept records stay in their original relative order |
| `RecordStore.DatabaseManager.UpdateRecord` | database_manager.py:109-129 | the table becomes `UpdateFirst` of the old one (only the first match changes); the table is written even when no record matches |
| `RecordStore.UpdateFirstFrame` | database_manager.py:121-126 | the length is kept; id, type and creation time of every record are kept; every record except the first match is untouched; that match gets the new payload, description and time; a missing id changes nothing |
| `RecordStore.DatabaseManager.GetStatistics` | database_manager.py:131-149 | total = table length; a type has a count exactly when some record has that type, and the count is the number of such records; the counts sum to the total |
| `RecordStore.CountByTypeCounts` | database_manager.py:145-147 | the accumulated per-type map equals the multiset of record types |
| `RecordStore.CountByTypeSum` | database_manager.py:140-147 | the per-type counts add up to the number of records |
| `RecordStore.SumValuesRemove` | database_manager.py:145-147 | taking a key out of the counter map takes exactly its count out of the sum |
| `RecordStore.AddKeepsDenseIds` | database_manager.py:42-51 | while ids are exactly 1..n, the count-based id keeps them 1..n+1 and therefore unique |
| `RecordStore.DeleteThenAddReusesId` | database_manager.py:43-100 | with ids 1..n, deleting any id below n and then adding assigns id n, which the last remaining record still carries |
| `RecordStore.AddDeleteAddScenario` | database_manager.py:30-107 | adding three records, deleting id 2 and adding again yields id 3, equal to the surviving third record's id |
| `Messenger.MaxMessenger.Recipient` | max_messenger.py:62 | an explicit non-empty recipient wins, then the chat id, then the phone number |
| `Messenger.MaxMessenger.PrepareSend` | max_messenger.py:31-62 | fails with "not configured" exactly when there is no API key or no chat id and no phone number; otherwise the chosen recipient is never empty |
| `Messenger.GenerateVerificationCode` | max_messenger.py:33-45 | the code has one character per random choice, each the chosen decimal digit |
| `Messenger.CodeVerification.constructor` | max_messenger.py:255-257 | the code table starts empty |
| `Messenger.CodeVerification.GenerateAndStoreCode` | max_messenger.py:259-276 | returns six decimal digits; maps that code to (operation, now, record id), replacing any entry under the same code; every other entry is unchanged |
| `Messenger.Verify` | max_messenger.py:278-306 | not found exactly when the code is absent; expired exactly when its age exceeds 600 s; confirmed exactly when live with the same operation; the code stays in the table exactly on a mismatch, and then the table is unchanged; other entries are never touched |
| `Messenger.CodeVerification.VerifyCode` | max_messenger.py:278-306 | result flag, message and new table are those of `Verify` on the old table |
| `Messenger.VerifiedIsSingleUse` | max_messenger.py:289-306 | after a confirmation, the same code is not found, whatever the operation and time |
| `Messenger.ExpiredThenNotFound` | max_messenger.py:289-298 | after an "expired" answer, the same code is not found rather than expired again |
| `Messenger.ExpiryBeforeOperation` | max_messenger.py:295-302 | an expired code queried with the wrong operation is still reported expired and removed |
| `Messenger.ExpiryBoundary` | max_messenger.py:295-296 | an entry exactly 600 s old is live; one second older it has expired |
| `Messenger.MismatchKeepsCodeUsable` | max_messenger.py:301-302 | after a mismatch, the correct operation within ten minutes of issue confirms the code |
| `Messenger.RecordIdIrrelevant` | max_messenger.py:278-306 | the stored record id changes neither the verdict nor which codes remain |
| `Messenger.Sweep` | max_messenger.py:308-317 | keeps exactly the entries that are not expired, unchanged |
| `Messenger.CodeVerification.CleanupExpiredCodes` | max_messenger.py:308-317 | the table becomes `Sweep` of the old table at `now` |
| `Messenger.SweepIdempotent` | max_messenger.py:308-317 | sweeping twice at the same time equals sweeping once |
| `Messenger.SweepThenVerify` | max_messenger.py:289-317 | after a sweep, a check at the same time never answers "expired", and on live codes the sweep changes no verdict |
| `PersonalData.PersonalDataEncryption.EncryptData` | encryption_module.py:52-69 | the caller's dictionary gains or overwrites `_encrypted_at`, visible afterwards; the token is the sealing of that stamped dictionary |
| `PersonalData.PersonalDataEncryption.DecryptData` | encryption_module.py:71-92 | a dictionary is returned exactly when base64, cipher, UTF-8 and JSON decoding of this token all succeed, and it is the decoded object minus `_encrypted_at`; the first failing stage gives a `ValueError` naming that stage (base64, cipher, UTF-8, JSON syntax, or a non-object) |
| `PersonalData.EncryptDecryptRoundTrip` | encryption_module.py:52-90 | under the round-trip assumption, decrypting the encryption of m gives m without `_encrypted_at` |
| `PersonalData.RoundTripWithoutReservedKey` | encryption_module.py:63-90 | a dictionary without the reserved key comes back exactly |
| `PersonalData.WrongKeyIsValueError` | encryption_module.py:81-92 | when the cipher rejects a token made under another password's key, decryption fails with the cipher-stage `ValueError` |
| `DataValidation.FirstMissing` | encryption_module.py:146-148 | the index found is absent or empty and every earlier field is given; none found exactly when all are given |
| `DataValidation.ValidateStudentData` | encryption_module.py:133-156 | succeeds with "Данные валидны" exactly when all five fields are non-empty and the date is accepted; otherwise names the first missing field in list order, or gives the date-format error when all are present |
| `DataValidation.ValidateTeacherData` | encryption_module.py:158-175 | succeeds exactly when the four fields are non-empty; otherwise names the first missing one in list order |
| `DataValidation.FirstMissingOnlyReadsRequired` | encryption_module.py:146-148 | the first gap depends only on the required fields |
| `DataValidation.StudentExtraKeysIgnored` | encryption_module.py:144-156 | adding a key outside the list never changes the student verdict |
| `DataValidation.TeacherExtraKeysIgnored` | encryption_module.py:169-175 | adding a key outside the list never changes the teacher verdict |
| `DataValidation.MessagesDistinguishOutcomes` | encryption_module.py:148 | a missing-field message names exactly one field and is never the success message |

## Left out

- The JSON database file is not modelled. The table lives in memory, and a ghost counter records the rewrites. A missing or unreadable file when adding, reading, deleting, updating or counting is an I/O failure in the source. These methods require that the file exists.
- `RecordStore.DatabaseManager.AddRecord` takes the two clock readings the source makes as two parameters. Nothing forces them to be equal, just as in the source.
- Python dictionaries keep insertion order; Dafny maps do not. Key order inside a personal-data dictionary, in the JSON text and in the statistics is not modelled.
- Dictionary values are strings. A value counts as missing only when it is the empty string. Python also treats `None`, `0` and empty containers as missing, and those values are not modelled.
- The lexical rules of `datetime.strptime(…, '%d.%m.%Y')` are not modelled. Date acceptance is a predicate passed to `ValidateStudentData`.
- Fernet (AES-128-CBC with HMAC-SHA-256), PBKDF2, base64, JSON and UTF-8 are opaque functions. Key separation and tamper detection are properties of the cipher and cannot be proved about an opaque function. `WrongKeyIsValueError` takes the cipher's rejection as a hypothesis.
- The text of the `ValueError` includes the library's own exception message. The model keeps only which decoding step failed.
- `encrypt_file` and `decrypt_file` are file I/O around the same cipher call.
- `send_message` stops before the network call, `_send_alternative`'s log file and `test_connection` are not modelled. Neither are `save_config` or `load_config`. These are network and file I/O.
- The message templates of `send_encryption_code`, `send_decryption_code` and `send_operation_notification` format the wall-clock time and have no invariant. They are not modelled.
- The source measures a code's age in floating-point minutes. The model uses whole seconds, with "expired" meaning strictly more than 600 s. Sub-second ages and float rounding at the boundary are not modelled.
- `Messenger.MaxMessenger.PrepareSend` computes "enabled" from the settings. The source computes it once and stores it. Those settings are never reassigned after construction (the GUI builds a new messenger instead), so the two agree.
- `secrets.choice` is replaced by the sequence of digit choices it would make.
- `CleanupExpiredCodes` collects the expired codes in a set rather than in a list in dictionary order. The set of deleted codes and the resulting table are the same.
- The GUI in `main_gui.py` is not part of this model.
