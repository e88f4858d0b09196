# Verified model of the HSM token engine

The HSM is a PKCS#11 token written in C: one slot with a table of 64 sessions and a table of 1024 objects, two PINs
with retry counters, a token file, and a directory of key files. This project models that engine and proves what
holds over every run of it.

It has two layers.

- **The code.** `Records`, `TokenRecords`, `SessionStores`, `ObjectStores`, `KeyPairs`, `Files` and `Slot` are
  imperative Dafny in the shape of the C sources: records updated in place through fixed label, id and find buffers,
  nullable pointer arrays with hand-kept counts, linear scans, a cursor, sequential reads and writes. The calling
  thread is an object too (`Locks.Thread`): `Lock` and `Unlock` record every operation on a session lock, the slot
  lock, the two counter locks and the global lock, and every method states the operations it has the thread perform.
- **The engine.** `Engine` gives each call as a function from state to state and reply (`Step`). Every API method of
  `Slot.Hsm` is proved to be that function on the slot's `Model()`, on every path, and to perform exactly the lock
  operations that `CallLocks.LockScript` gives for that state and call. The whole-run theorems are about
  `Step`: `Effects` reads off it what a call can do to sessions, objects and PINs, `Runs` defines runs from a fresh
  process on any disk, and the remaining modules prove the theorems.

A predicate marked "quantified over a copy" means its body for the value itself: `forall t :: t == s ==> P(t)` is
`P(s)`. Written so, the verifier passes it on without unfolding `P`, and `assert P(s)` opens it.

SHA-256 and signing are function parameters (`Crypto`), and the key material a generation draws is a parameter of the
call (`Material`), so every statement holds for all of them. Files are byte strings under their names.

Main results:

- A signature comes from the object its `C_SignInit` vetted, and that object is the private half of a key pair
  generated for a logged-in user (`Provenance`), while at most 2^28 + 2 object handles have been issued. Handles in
  general stay apart for 2^28 issues only (`HandleSupply`); those of private halves last a little longer
  (`SigningHandles`), and the bound is exact: with one handle more there is a run in which `C_Sign` signs with an object
  nobody vetted (`HandleReuse`).
- A call keeps the order of locks and releases them all exactly when it is not a `C_InitToken` or
  `C_CloseAllSessions` with a session open, which takes the slot lock twice and hangs. Any number of threads making
  any other calls never deadlock, and every schedule completes (`CallLocks`). Runs contain the calls that return. A call
  that changes or looks at what a lock protects takes that lock (`LockCoverage`), and every method of the code that
  changes PINs, tables, files or a session requires the calling thread to hold the lock at that moment.
- Key material cannot be told apart by any reply other than to `C_Sign` (`Independence`).
- Retry counts, locks and replies to PINs are functions of the history of attempts, and across restarts the stored
  hash is that of the PIN last set (`Lockout`), and so are which PINs exist and the label (`TokenHistory`).
- Who is logged in, searching, signing or verifying on a session is told by the calls on its handle
  (`SessionHistory`), and with that the code of every call, refusals included, by the history of the run (`Replies`).
- A generated pair carries the keys that were asked for and drawn (`GeneratedKeys`); objects are what their templates
  say (`Attributes`), and have files exactly when those say token (`TokenObjects`).
- The token file always decodes to the fields in memory (`Persistence`); key files are those of the live token objects
  and of token objects left behind by an earlier Finalize, each holding the object as installed (`KeyFileCoherence`);
  the key file format is unambiguous (`Storage`); key file names and the directory listing undo each other exactly
  below 2^32 (`KeyFileNames`).
- Find pages deliver a snapshot exactly once (`Paging`), the arrays are finite maps: a call that changes one succeeds
  exactly when the map and the rest of the state let it, and changes it exactly as its reply says (`Refinement`),
  sessions follow their state machine and do not see each other (`SessionMachine`), a handle goes on naming one object
  (`Lifetimes`), attributes read back what templates wrote (`Attributes`), over whole runs (`ReadBack`).

Where the code departs from its documentation or from PKCS#11 v2.40, the model follows the code:

- `C_InitToken` copies as many label bytes as the PIN is long (hsm/src/pkcs11/session.c:59);
  `Persistence.LabelStoredExactlyWhen` says when the caller's label survives that.
- `hsm/README.md:304-308` has a locked PIN cured by `rm -rf /var/lib/hsm/*`. Locks and retry counts are not on disk: a
  Finalize and an Initialize alone open the lock and refill the counts, and keep the token (`Persistence.RestartRestores`).
- `C_Sign` ends its operation even when the buffer is too short, unlike section 5.2 of PKCS#11 v2.40
  (`SessionMachine.SignEndsOperation`).
- `hsm_parse_template` resets the flags set just before it, so a generated public key is private, sensitive and not
  extractable (hsm/src/pkcs11/objects.c:456-459).
- Login is per session, searches match nothing, and the loader of key files stops after the metadata.

## Model

| member | source | states |
|---|---|---|
| Slot.Hsm.Initialize | hsm/src/pkcs11/pkcs11_impl.c:33-89 | the whole new state and the lock operations: refused when running, otherwise empty tables, full retry counts, token fields from the file |
| Slot.Hsm.Finalize | hsm/src/pkcs11/pkcs11_impl.c:94-126 | the whole new state and the lock operations: every session closed under the slot lock one at a time, every object freed, disk and counters kept |
| ObjectStores.ObjectStore.FreeAll | hsm/src/utils/utils.c:234-241 | the freeing loop empties the object array and touches no file |
| Slot.Hsm.OpenSession | hsm/src/pkcs11/session.c:193-222 | state, reply and lock operations for every slot number and flag word: slot lock, then counter lock when there is room |
| Slot.Hsm.CloseSession | hsm/src/pkcs11/session.c:227-234 | state, reply and lock operations of closing one session |
| Slot.Hsm.CloseAllSessions | hsm/src/pkcs11/session.c:239-262 | hangs exactly when a session is open, holding the slot lock and with nothing changed; otherwise state, reply and lock operations |
| Slot.Hsm.GetSessionInfo | hsm/src/pkcs11/session.c:267-315 | flags and state code reported under the session lock, state unchanged |
| Slot.Hsm.FindSession | hsm/src/pkcs11/session.c:534-552 | the lowest cell with the handle, or the right error |
| Slot.Hsm.InitToken | hsm/src/pkcs11/session.c:18-78 | hangs exactly when it gets to its close loop with a session open, with nothing changed; otherwise state, reply and lock operations: security officer PIN, cut label, flags, full retry counts, file |
| Slot.Hsm.InitPin | hsm/src/pkcs11/session.c:83-126 | state, reply and lock operations on every path; only the security officer sets the user PIN |
| Slot.Hsm.SetPin | hsm/src/pkcs11/session.c:131-188 | state, reply and lock operations on every path; the old PIN is judged like a login |
| Slot.Hsm.Login | hsm/src/pkcs11/session.c:320-383 | state, reply and lock operations on every path: session lock, then slot lock unless refused before, both released |
| Slot.Hsm.Logout | hsm/src/pkcs11/session.c:388-413 | state, reply and lock operations on every path |
| Slot.Hsm.CreateObject | hsm/src/pkcs11/objects.c:34-54 | state, reply and lock operations on every path, without a login check |
| Slot.Hsm.DestroyObject | hsm/src/pkcs11/objects.c:59-70 | state, reply and lock operations on every path |
| Slot.Hsm.GetAttributes | hsm/src/pkcs11/objects.c:75-98 | the entries and the reply, with the entries untouched when the object is not reached |
| Slot.Hsm.SetAttribute | hsm/src/pkcs11/objects.c:103-126 | state and reply on every path; no file is written |
| Slot.Hsm.FindInit | hsm/src/pkcs11/objects.c:131-158 | state, reply and lock operations on every path: the snapshot and a cursor at its start |
| Slot.Hsm.FindNext | hsm/src/pkcs11/objects.c:163-196 | the next page and the advanced cursor, under the session lock |
| Slot.Hsm.FindFinal | hsm/src/pkcs11/objects.c:201-223 | state, reply and lock operations on every path |
| Slot.Hsm.GenerateKeyPair | hsm/src/pkcs11/crypto_ops.c:13-175 | state, reply and lock operations on every path; the session lock is dropped before the slot lock is taken, and two handles are drawn under it |
| Slot.Hsm.SignInit | hsm/src/pkcs11/crypto_ops.c:180-240 | state, reply and lock operations on every path of the vetting |
| Slot.Hsm.Sign | hsm/src/pkcs11/crypto_ops.c:245-297 | state, reply and lock operations on every path; the operation ends unless it was never there |
| Slot.Hsm.VerifyInit | hsm/src/pkcs11/crypto_ops.c:326-370 | state, reply and lock operations on every path |
| Slot.Hsm.Verify | hsm/src/pkcs11/crypto_ops.c:375-419 | state, reply and lock operations on every path; verification itself answers not supported |
| TokenRecords.TokenRecord.Verify | hsm/src/utils/utils.c:284-328 | verdict, retry count and lock for every role and PIN |
| TokenRecords.TokenRecord.Start | hsm/src/utils/utils.c:193-211 | zeroed fields, full retry counts, then the file |
| TokenRecords.TokenRecord.ChangePin | hsm/src/pkcs11/session.c:164-181 | nothing but the retry state changes unless the old PIN is right; then the new hash is stored and saved |
| SessionStores.SessionStore.FreeSessionCell | hsm/src/pkcs11/session.c:430-436 | below 64 the scan stops at the lowest free cell, in bounds |
| SessionStores.SessionStore.InstallSession | hsm/src/pkcs11/session.c:443-472 | the fresh session and its handle in the lowest free cell, count kept right |
| SessionStores.SessionStore.Create | hsm/src/pkcs11/session.c:418-479 | refused at 64, otherwise the new session, with slot lock and counter lock nested |
| SessionStores.SessionStore.Destroy | hsm/src/pkcs11/session.c:484-529 | exactly the found session goes, under the slot lock; in a thread that holds that lock it hangs with nothing changed |
| SessionStores.SessionStore.CloseEverySession | hsm/src/utils/utils.c:227-232 | the close loop ends with every cell null and the count 0, each destroy freeing the cell the loop stands on; under the slot lock it hangs exactly when a session is open |
| SessionStores.SessionStore.FreeSession | hsm/src/pkcs11/session.c:523-524 | one cell freed, and the count cannot underflow |
| ObjectStores.ObjectStore.GenerateHandle | hsm/src/utils/utils.c:333-359 | base of the type plus a counter that wraps at 2^32 |
| ObjectStores.ObjectStore.Create | hsm/src/pkcs11/objects.c:228-283 | the parsed object in the lowest free cell, in bounds though the index is not rechecked, with its file, under the slot lock |
| ObjectStores.ObjectStore.Destroy | hsm/src/pkcs11/objects.c:288-325 | the found object and its file go, nothing else, under the slot lock |
| ObjectStores.ObjectStore.Collect | hsm/src/pkcs11/objects.c:334-349 | the first hundred live handles in table order overwrite the front of the result buffer |
| ObjectStores.ObjectStore.TwoFreeCells | hsm/src/pkcs11/crypto_ops.c:130-141 | the two-index scan yields the two lowest free cells, or 1024 for those that do not exist |
| ObjectStores.ObjectStore.InstallPair | hsm/src/pkcs11/crypto_ops.c:126-169 | both halves in the two lowest free cells under consecutive handles with their files, or nothing at all |
| Records.SessionRecord.Page | hsm/src/pkcs11/objects.c:186-189 | the loop returns the next handles and moves the cursor by as many |
| Records.ObjectRecord.Parse | hsm/src/pkcs11/objects.c:453-494 | the object in place after a whole template |
| Records.ObjectRecord.SetValues | hsm/src/pkcs11/objects.c:430-448 | the label buffer in place up to the first entry of another type, and the code |
| Records.ObjectRecord.GetValues | hsm/src/pkcs11/objects.c:357-425 | every entry in place and the code, continuing past failures |
| KeyPairs.GenerateKeys | hsm/src/pkcs11/crypto_ops.c:72-124 | the answer is the one the template asks for: size or curve of the lowest entry of its type, 2048 or P-256 without one, refused exactly for other sizes, private components in the private half only |
| KeyRequests.AsksForOne | hsm/src/pkcs11/crypto_ops.c:74-113 | a template asks for one size and one curve |
| KeyPairs.BuildPair | hsm/src/pkcs11/crypto_ops.c:45-124 | two separate new objects, each with its template and its half of the key |
| GeneratedKeys.GeneratedPairIsAsAsked | hsm/src/pkcs11/crypto_ops.c:45-169 | over a run: the two handles returned name objects that carry the two halves of what OpenSSL drew for the size or curve asked for; only the private one may sign, only the public one verify; each has the class and flags its template says |
| GeneratedKeys.LiveHalfIsAsAsked | hsm/src/pkcs11/crypto_ops.c:45-169 | the same of either half for as long as it is live |
| Files.WriteToken | hsm/src/storage/storage.c:53-59 | six sequential writes make the token encoding |
| Files.ReadToken | hsm/src/storage/storage.c:79-85 | six sequential reads decode it, keeping what a short file does not reach |
| Files.WriteObject | hsm/src/storage/storage.c:112-162 | the sequential writes, with their conditions, make the object encoding |
| Files.ReadMetadata | hsm/src/storage/storage.c:187-197 | ten sequential reads decode the metadata and nothing of the key section |
| Files.LoadObject | hsm/src/storage/storage.c:177-208 | the file named after the handle is read, or the handle is invalid |
| KeyFileNames.ListObjects | hsm/src/storage/storage.c:229-255 | at most 1024 handles in directory order, with or without a buffer, scanned as `%08lx` is by section 7.21.6.2 of C11, foreign names included |
| Tables.FreeCellExists | hsm/src/pkcs11/objects.c:235-246 | pigeonhole: the scan finds a free cell exactly below capacity |
| Tables.TwoFreeCells | hsm/src/pkcs11/crypto_ops.c:130-148 | a second free cell is found exactly when at least two are free |
| Tables.AsMapIsTable | hsm/include/pkcs11/pkcs11_internal.h:205-211 | a table of distinct handles is a finite map of as many entries as it has used cells |
| Tables.LookupIsMap | hsm/src/pkcs11/session.c:540-549 | linear search is map lookup, both ways |
| Tables.InsertIsMap | hsm/src/pkcs11/session.c:471-472 | filling a free cell under a new handle is map insertion |
| Tables.RemoveIsMap | hsm/src/pkcs11/session.c:523-524 | freeing a cell is map removal |
| Tables.UpdateIsMap | hsm/src/pkcs11/objects.c:434-439 | changing an item in place is map update |
| Tables.HandlesAreLive | hsm/src/pkcs11/objects.c:336-348 | the handles collected are exactly the live ones, each once |
| Tables.HandlesInTableOrder | hsm/src/pkcs11/objects.c:336-348 | and stand in table order |
| Refinement.SessionTableIsMap | hsm/src/pkcs11/session.c:418-552 | over every run each call that changes the session table (open, close, start, stop, login, logout, the find, sign and verify calls) succeeds exactly when the map, its arguments, the stored PIN and the object it names let it, and then inserts, removes or updates under the handle of the call or its reply; otherwise, and at every other call, the map stays |
| Refinement.SessionLookupIsMap | hsm/src/pkcs11/session.c:534-552 | in every reachable state the lookup finds a session exactly when the map has it |
| Refinement.ObjectTableIsMap | hsm/src/pkcs11/objects.c:228-325 | the same for create, destroy, relabel and generate on the object map, with the handles of the reply new to it |
| Refinement.OpenRefusedExactlyWhenFull | hsm/src/pkcs11/session.c:424-441 | refused for lack of room exactly when all 64 cells are used |
| Refinement.CreateRefusedExactlyWhenFull | hsm/src/pkcs11/objects.c:235-246 | refused exactly when all 1024 cells are used, otherwise the lowest free cell is filled |
| Refinement.PairRefusedExactlyWhenFull | hsm/src/pkcs11/crypto_ops.c:143-156 | refused exactly when more than 1022 cells are used, and then nothing has changed; otherwise the two lowest free cells are filled in order |
| HandleSupply.FirstHandlesDistinct | hsm/src/utils/utils.c:333-359 | the first 2^28 object handles are pairwise distinct for every mix of types |
| HandleSupply.HandlesMeetExactly | hsm/src/utils/utils.c:338-358 | before the counter wraps two handles meet exactly when issue distance and base distance agree |
| HandleSupply.NextHandleCanCollide | hsm/src/utils/utils.c:338-358 | the bound is tight: a public handle after 2^28 others equals the first private one |
| HandleSupply.RangeTellsType | hsm/include/pkcs11/pkcs11_internal.h:34-38 | below the bound the base range recovers the type a handle was issued for |
| HandleSupply.HandleValues | hsm/src/utils/utils.c:338-358 | the handles themselves: each type counts from its own base, and unknown types from none |
| Runs.RunSound | hsm/include/pkcs11/pkcs11_internal.h:92-215 | in every state of every run: session states, retry states, distinct issued handles, empty tables when down |
| Lifetimes.ObjectPersists | hsm/src/pkcs11/objects.c:263-270 | a handle live at two points of a run is live throughout and names one object but for its label, and with its label unless relabelled in between |
| Lifetimes.LiveIsBorn | hsm/src/pkcs11/objects.c:263-270 | every live object is, but for its label, what the call that returned its handle installed |
| Lifetimes.BornOnce | hsm/src/utils/utils.c:333-359 | a handle that a call returned is never returned again |
| Lifetimes.UntouchedIsAsBorn | hsm/src/pkcs11/objects.c:430-448 | an object nobody relabelled is exactly as installed |
| Provenance.SigningKeysAreGenerated | hsm/src/pkcs11/crypto_ops.c:62-66 | every live object that may sign is the private half of an earlier pair of a logged-in user |
| Provenance.OperationHasInit | hsm/src/pkcs11/crypto_ops.c:227-232 | an active sign operation was started by a SignInit on that session and has lasted since |
| Provenance.SignatureProvenance | hsm/src/pkcs11/crypto_ops.c:180-297 | for 2^28 + 2 handles, every key handed to OpenSSL is that of the object the SignInit vetted, live ever since, with the private components drawn when it was generated by a user who had logged in there and not out; for 2^28 + 1, every Sign that reaches an object hands its key over |
| SigningHandles.VettedKeyStays | hsm/src/utils/utils.c:333-359 | what a private half's handle names goes on being one object, in one cell, past the point where handles in general meet |
| HandleReuse.RefusalBeyondTheHandles | hsm/src/crypto/crypto_ops.c:541-550 | a run of 2^28 + 2 handles whose Sign reaches an object and has no key to hand over |
| HandleReuse.ProvenanceEndsWithTheHandles | hsm/src/utils/utils.c:333-359 | a run of 2^28 + 3 handles whose Sign goes through with an object that may not sign, and has no such history |
| Independence.AlikeAnswers | hsm/src/pkcs11/objects.c:357-425 | no array of attributes tells apart objects that differ in key material only |
| Independence.AlikeSign | hsm/src/pkcs11/crypto_ops.c:245-297 | the state left by Sign does not depend on key material |
| Independence.KeyMaterialUnobservable | hsm/src/pkcs11/objects.c:357-494 | two runs with different key material give the same replies to every call but Sign |
| Independence.EveryObjectStaysSecret | hsm/src/pkcs11/objects.c:455-459 | every live object is sensitive and not extractable, whatever its template said |
| Lockout.RetryCountIsHistory | hsm/src/utils/utils.c:306-327 | for each role over every run the retry count is 3 minus the streak of wrong PINs, locked exactly at 0 |
| Lockout.AttemptIsJudgedByHistory | hsm/src/utils/utils.c:313-327 | the reply to every PIN presented follows from that streak alone |
| Lockout.LockedStaysLocked | hsm/src/utils/utils.c:306-308 | a locked PIN stays locked until it is reset, whatever is offered |
| Lockout.AtMostThreeCompared | hsm/src/utils/utils.c:306-322 | at most three wrong PINs are compared between resets, however many are tried |
| Lockout.StoredHashIsLastSet | hsm/src/utils/utils.c:263-279 | names the last successful call that set the role's PIN, whose hash is the stored one across any number of restarts; without one it is that of the file found |
| Lockout.AcceptedExactlyWhen | hsm/src/utils/utils.c:310-327 | a PIN is accepted exactly when it hashes like the one last set, no InitToken has taken it away, and fewer than three wrong ones stand on record |
| Lockout.InitialisedPinWorks | hsm/src/pkcs11/session.c:83-126 | the PIN a C_InitPIN set is accepted from then on, while fewer than three wrong ones stand on record and nothing sets it anew |
| TokenHistory.PinFlagsAreHistory | hsm/src/pkcs11/session.c:62-66 | over any number of restarts: the user has a PIN exactly when an InitPIN succeeded and no InitToken since, the officer once an InitToken did, and without either as the token file says |
| TokenHistory.LabelIsLastSet | hsm/src/pkcs11/session.c:57-60 | the label is that of the last successful InitToken, cut at the length of its PIN and filled with blanks |
| Persistence.TokenWrittenThrough | hsm/src/pkcs11/session.c:71-72 | at every call boundary the token file loads to the six fields in memory |
| Persistence.OwnFileStaysExact | hsm/src/storage/storage.c:45-66 | once the engine wrote the file, its bytes are the encoding of the fields ever after |
| Persistence.RestartRestores | hsm/src/utils/utils.c:187-211 | Finalize then Initialize restores hashes, flags and label, with full retry counts and open locks |
| Persistence.RestartJudgesAlike | hsm/src/utils/utils.c:284-328 | over a run, a PIN is judged alike before a Finalize and after the next Initialize, but for a lock that is lifted |
| Persistence.LabelStoredExactlyWhen | hsm/src/pkcs11/session.c:57-60 | the caller's label is stored whole exactly when it is blank from the PIN's length on |
| Persistence.LongLabelIsCut | hsm/src/pkcs11/session.c:57-60 | a concrete label that is not |
| Storage.TokenRoundTrip | hsm/src/storage/storage.c:45-91 | loading a saved token file restores every field over any earlier contents |
| Storage.MetadataRoundTrip | hsm/src/storage/storage.c:177-208 | the loader recovers all ten metadata fields of any saved file, whatever follows them |
| Storage.FormatUnambiguous | hsm/src/storage/storage.c:112-162 | equal bytes mean equal metadata, tag and components, private ones exactly for private keys, and the same end |
| Storage.SameFileIffSameSaved | hsm/src/storage/storage.c:112-162 | two files are equal exactly when the persisted fields are |
| Storage.PrefixFree | hsm/src/storage/storage.c:112-162 | no saved file is a proper prefix of another |
| Storage.TokenLayout | hsm/src/storage/storage.c:53-59 | the token file byte by byte |
| Storage.MetadataLayout | hsm/src/storage/storage.c:112-122 | the metadata of a key file, field by field in the order written |
| Storage.KeyLayout | hsm/src/storage/storage.c:124-162 | the key section: size or curve, the public components and in private-key files the private ones, each after its length |
| KeyFileNames.ScanInvertsName | hsm/src/storage/storage.c:239-249 | the listing reads back the handle a file is named after exactly when it is below 2^32 |
| KeyFileNames.NineDigitHandleIsMisread | hsm/src/storage/storage.c:242 | a concrete handle that is not read back |
| KeyFileNames.NamesDistinct | hsm/src/storage/storage.c:104 | distinct handles of any size get distinct files |
| KeyFileNames.NameOfDigits | hsm/src/storage/storage.c:104 | a handle of eight hexadecimal digits is written as those digits, lower case, between prefix and suffix |
| KeyFileNames.ListedExactly | hsm/src/storage/storage.c:229-255 | listing a directory of key files gives their handles, each once |
| KeyFileCoherence.DirectoryCoherent | hsm/src/pkcs11/objects.c:274-277 | after every call the key files are those of the live token objects and of orphans of earlier epochs, each the encoding of the object as its creating call installed it |
| KeyFileCoherence.NoOrphansBeforeFinalize | hsm/src/utils/utils.c:234-241 | within the first epoch there are no orphans |
| KeyFileCoherence.LoadGivesMetadata | hsm/src/storage/storage.c:177-208 | loading the file of a live token object or an orphan gives all ten fields of the object as installed |
| KeyFileCoherence.LoadGivesLiveMetadata | hsm/src/storage/storage.c:177-208 | for a live token object these are its own fields but for a label changed since |
| KeyFileCoherence.LoadGivesWholeMetadata | hsm/src/storage/storage.c:177-208 | and its own label too when no C_SetAttributeValue named it since it was installed |
| KeyFileCoherence.ListingGivesHandles | hsm/src/storage/storage.c:229-255 | listing the directory in any reachable state gives exactly those handles |
| KeyFileCoherence.ListingIsComplete | hsm/src/storage/storage.c:229-255 | before the first Finalize the cap of 1024 never bites: the count is that of the live token objects, and the handles are theirs |
| TokenObjects.FileIffToken | hsm/src/storage/storage.c:98-101 | in every reachable state a live object has a file exactly when it is a token object |
| TokenObjects.CreatedFile | hsm/src/pkcs11/objects.c:274-277 | while a created object is live its file is there exactly when its template asked for a token object |
| TokenObjects.FileRightAfterCreate | hsm/src/pkcs11/objects.c:274-277 | in particular right after the call |
| TokenObjects.GeneratedFile | hsm/src/pkcs11/crypto_ops.c:158-169 | the same of either half of a generated pair, with its own template |
| TokenObjects.FilesRightAfterGenerate | hsm/src/pkcs11/crypto_ops.c:158-169 | in particular right after the call |
| Paging.PageDelivers | hsm/src/pkcs11/objects.c:186-191 | one page is the next slice of the snapshot, as long as asked for or left |
| Paging.PagesAreTheSnapshot | hsm/src/pkcs11/objects.c:131-223 | the pages together are the front of the snapshot, without repetition, whatever happens in between |
| Paging.SnapshotIsFront | hsm/src/pkcs11/objects.c:330-352 | the snapshot is the first hundred live handles, all of them when there are no more |
| SessionMachine.ReachableSessions | hsm/src/pkcs11/session.c:343-373 | never user and security officer at once, the officer only read-write, `state` a function of the flags, operations Sign or Verify only |
| SessionMachine.InfoIsExact | hsm/src/pkcs11/session.c:283-308 | the reported code is the function of mode and logins, so the default branch is dead |
| SessionMachine.OtherSessionsUntouched | hsm/include/pkcs11/pkcs11_internal.h:159-184 | a call leaves every session it does not name exactly as it was |
| SessionMachine.SignEndsOperation | hsm/src/pkcs11/crypto_ops.c:264-287 | one Sign call ends the operation whatever it returns, a short buffer included |
| SessionHistory.FlagIsHistory | hsm/src/pkcs11/session.c:320-413 | over a run: the user or the officer is logged in on a session exactly when a Login for them succeeded there and no Logout since; likewise for a search and for a sign or verify operation |
| SessionHistory.ModeIsAsOpened | hsm/src/pkcs11/session.c:456-458 | an open session was opened under its handle, and is read-write exactly when that call asked for it |
| SessionHistory.InfoIsHistory | hsm/src/pkcs11/session.c:267-315 | the flags and the state number reported are a function of the opening call and the logins since |
| SessionHistory.MovesTouchOnly | hsm/src/pkcs11/session.c:388-413 | a successful Logout leaves nobody logged in, a Login just the one it names, and no call changes more of its session than its own part |
| Replies.ReplyIsHistory | hsm/src/pkcs11/session.c:18-413 | the code of every call, refusals included, from the history: PINs set and offered, logins, searches and operations of the session, and what is in the tables |
| Replies.OutputsFit | hsm/src/pkcs11/session.c:193-222 | which calls return what beside their code, and that refusals return nothing |
| Attributes.PutLabelReadsBack | hsm/src/pkcs11/objects.c:434-438 | a fitting label reads back up to its first zero byte over any earlier label; an overlong one is ignored |
| Attributes.ReadsBackExactlyWhen | hsm/src/pkcs11/objects.c:386-393 | it reads back whole exactly when it holds no zero byte |
| Attributes.ParsedTemplateReadsBack | hsm/src/pkcs11/objects.c:453-494 | a new object reads back the last fitting label and id of its template |
| Attributes.ParsedAsTemplateSays | hsm/src/pkcs11/objects.c:453-494 | a new object is a token object exactly when the last entry about it says so, private unless the last one denies it, and of the class the last one gives |
| Attributes.AttributeBytes | hsm/src/pkcs11/objects.c:362-415 | the bytes that class, flags and key type read as, written out |
| Attributes.SetAttributesReadsBack | hsm/src/pkcs11/objects.c:430-448 | labels before the first other entry stay even when the call fails; it succeeds exactly when all are labels |
| Attributes.AnswerSucceedsExactlyWhen | hsm/src/pkcs11/objects.c:362-421 | when an entry succeeds, and that exactly the value is copied |
| Attributes.FailedEntryReports | hsm/src/pkcs11/objects.c:384-419 | a failing entry leaves its buffer alone and reports the length needed, or that the type is not available |
| Attributes.LastFailureIsReturned | hsm/src/pkcs11/objects.c:359-424 | the code returned is that of the last failing entry |
| Attributes.TwoCallProtocol | hsm/src/pkcs11/objects.c:357-425 | asking lengths and then providing them succeeds and copies exactly the values |
| ReadBack.CreatedReadsBack | hsm/src/pkcs11/objects.c:357-494 | over a run, a created object reads back byte by byte what the last entries of its template say about token, privacy, class, label and id, and an RSA key type, until it is relabelled |
| ReadBack.GeneratedReadsBack | hsm/src/pkcs11/objects.c:357-494 | the same of either half of a generated pair, with its own template and the key type of the mechanism |
| ReadBack.RelabelledReadsBack | hsm/src/pkcs11/objects.c:357-448 | a label set later reads back likewise |
| ReadBack.TwoCallsAgree | hsm/src/pkcs11/objects.c:357-425 | the two calls of the length protocol agree over a run when nothing relabels the object in between |
| Locks.NoTwoOwners | hsm/include/pkcs11/pkcs11_internal.h:295-298 | a lock never has two owners |
| CallLocks.CallDisciplinedExactlyWhen | hsm/src/pkcs11/session.c:250-258 | for every state and call: locks are taken in rising order and all released exactly when the call is not a close loop under the slot lock with a session open |
| CallLocks.CallBalancedOrStuck | hsm/src/pkcs11/session.c:340-378 | every call of every state keeps the order on top of what came before, or takes the slot lock twice right away |
| CallLocks.CallsNeverDeadlock | hsm/src/pkcs11/session.c:340-378 | any number of threads making calls that return: while one is unfinished, one can go on |
| CallLocks.CallsComplete | hsm/src/pkcs11/session.c:340-378 | their schedules are bounded, and one nobody can continue has finished all threads with all locks free |
| CallLocks.CallsCanAlwaysFinish | hsm/src/pkcs11/session.c:340-378 | wherever they are, some schedule finishes them all |
| CallLocks.FinishExactlyWhenCallsReturn | hsm/src/pkcs11/session.c:250-258 | threads can all finish exactly when every call they make returns |
| LockCoverage.AuthChangesLocked | hsm/src/pkcs11/session.c:340-378 | a call that presents a PIN, or changes token or PIN fields other than by Initialize, takes the slot lock |
| LockCoverage.SessionChangesLocked | hsm/include/pkcs11/pkcs11_internal.h:159-215 | opening and closing a session takes the slot lock, a session handle its counter's lock, and a change to what a session says that session's lock |
| LockCoverage.ObjectChangesLocked | hsm/src/pkcs11/objects.c:228-325 | adding or removing an object or its file takes the slot lock, an object handle its counter's lock |
| LockCoverage.StartLocked | hsm/src/pkcs11/pkcs11_impl.c:33-126 | the library starts and stops under the global lock |
| LockCoverage.LooksAreLocked | hsm/src/pkcs11/session.c:267-315 | whatever a session says, a call that does not take its lock replies the same and does the same to PINs, objects and files |
| Locks.RelockingThreadIsStuck | hsm/src/pkcs11/session.c:250-256 | a thread whose script takes a lock twice never gets past it in any schedule |

## Left out

- OpenSSL: key generation, signing and SHA-256 are parameters; `hsm_verify_signature` always answers not supported, so nothing is said about successful verification.
- The network server and the command-line client: most commands of the server are placeholders and the client's output is simulated.
- Session timeouts: the check is declared but never defined, and the setting is never read.
- Mechanism lists, name tables, slot and token information, the function list and the calls that only answer "not supported": finite or trivial.
- I/O errors and `malloc` failure: files always open and hold what was written; short token files are modelled.
- Creation and modification times, reference counts, `storage_path`, `is_loaded` and the capability flags other than sign and verify: written or zeroed but never read by the modelled calls.
- NULL output pointers: calls that check one return CKR_ARGUMENTS_BAD before touching any state, like the NULL inputs that are modelled.
- Data races: each call is atomic in runs; interleaving is modelled for the locks only, not for the unlocked reads of `hsm_get_session` and `hsm_get_object` nor for a session freed between lookup and lock.
- Slot.Hsm.Initialize: the global mutex is re-initialised while held; no other thread is assumed to run then.
- ObjectStores.ObjectStore.FreeAll: it zeroes the object count too; the source leaves the count until `C_Initialize` clears the slot, and no call reads it in between.
- Slot.Hsm.GetAttributes: the caller's buffers are as large as the code assumes, eight bytes for classes and key types whatever length the entry claims.
- A key file loaded with a damaged or short key section: the loader never reads that far.
