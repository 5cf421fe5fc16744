# key-protecc: the key store and signers, modelled and proved

key-protecc keeps ECDSA P-256 signing keys in a TPM 2.0 (Linux, Windows) or a Secure Enclave
(macOS). On Linux the TPM-wrapped key lives in a file, so `createKey`, `loadKey` and `deleteKey`
are a small lock-free storage protocol: several processes share one directory, and a key must
appear whole, once, and never be overwritten, also when a step fails or the machine stops. The
same code owns an open TPM device and transient TPM objects, and hands out a signer that many
goroutines may call. This project models that behaviour and proves what it promises.
`dafny verify dfyconfig.toml` checks everything.

## How the proof is laid out

The Linux store, from the promise down to the code:

- `AtomicStore` is the promise: an atomic map from names to keys with create-if-absent, get and
  remove, durable in batches. The theorems about answers, races, durability and the origin of keys
  are proved of this map.
- `FileSystem` has directories, inodes, what is durable, and what a crash may leave.
  `StoreProtocol` runs any number of processes over it, one system call at a time. Every call may
  fail, a process may die, the machine may lose power.
- `StoreInvariant` is what holds in every reachable state. `StoreRefinement` shows that every event
  of the protocol is one step of the atomic map: a create takes effect at Link, an "already exists"
  at Stat or Link, a load at the opening of the file, a delete at Remove.
- `StoreTheorems` carries the promises over to all runs of the protocol. `StoreRuns` has plain runs, and those
  that reach the exceptions to the code's comments.
- `LinuxSystem` has the system calls of one process while others interfere, each logged with its
  outcome. `LinuxBackend` is `key_linux.go` in its own imperative form; its methods are proved to take
  exactly the protocol's steps, and to answer, success or failure, what the one call that decided said. `LinuxInterference` shows that the interference they tolerate is what the protocol's other
  processes do.

Beside the store:

- `BlobCodec` (framing of a key blob) and `Naming` (base64url names, paths, temporary names) over
  `Bytes`.
- `TpmLedger` (the rules for one device: what may be sent, flushed and closed, and when) and
  `SignerProtocol` (goroutines in `Sign` and `Close`, every command taken apart into send and
  receive). A log that `createKey` or `loadKey` leaves behind is one that `SignerProtocol` starts
  from, and what the methods of `LinuxBackend.TpmSigner` do under the mutex are its steps.
- `LinuxLifetime` runs the store and the signers together; `LifetimeRuns` follows one key from its
  create through a load, a signature and the Close.
- `Der`, `EccBlob` and `SignArguments` (signatures, the NCrypt public blob, argument checks of `Sign`).
- `WindowsBackend` (NCrypt handles) and `DarwinBackend` (a keychain that allows several keys per
  name). Each library keeps a log of its calls with their results, which the contracts speak of, and
  the outcome of every call is fixed beforehand in a plan (`Environment`) that is arbitrary. Each has a
  `Session`, a caller that makes any sequence of requests on real objects.

## What the environment is taken to do

- `CreateTemp` returns a name with the documented shape that is not bound, in an existing directory.
- `Link` fails with `EEXIST` when the target exists. An open inode stays readable after it is unlinked.
- A failing call has no effect, except that a failing write may have written any part of the data.
- A file sync makes that inode durable. After a crash, an inode not synced since its last change holds
  anything, and any subset of the directory changes since the last directory sync has happened. The
  store directory itself may be gone unless its own entry was already durable in its parent.
- A sync of the directory is modelled as opening and syncing it in one step, which may fail as a whole.
- Nothing else writes in the store directory.
- TPM handles are never 0, and the resource manager drops what is still loaded when the device is
  closed. A command that fails may have been performed. A failed receive has still used up its
  response. `CreatePrimary` gives the same parent each time.
- The marshaled public and private areas take at most 65537 bytes each, a 16-bit length and its
  bytes. `Marshal` and `Unmarshal` are inverse, so a key is a pair of byte strings. Whether a public
  area holds a P-256 key is a function of the area, the parameter `parses`.
- `NCryptFreeObject` succeeds on a live handle that no other live handle depends on, and
  `NCryptDeleteKey` uses up its handle exactly when it succeeds.
- The configuration directory is not the empty string.

## Where the code and its comments differ

The model follows the code. For each difference the project proves exactly when the comment does hold.

- `uint32(len(...))` drops high bits silently. Reading back what was framed gives the same key if and
  only if both areas are shorter than 2^32 bytes (`BlobCodec.RoundTrip`; `LongAreaMisread` gives a key
  for which it does not). The TPM's areas always are.
- "Already exists" is also reported when `MkdirAll` or `CreateTemp` fails with `EEXIST`, since
  `errors.Is(err, os.ErrExist)` sees those too. The report can be relied on if and only if it does not
  come from one of those two (`StoreTheorems.AlreadyExistsReliableIff`; `StoreRuns.FalseReport` is a
  run with a false one).
- "A failure leaves nothing behind" and "reachable only via path" hold at the end of the call if and only
  if the ignored removal of the temporary name succeeds (`StoreTheorems.FailedCreateLeavesNothing`,
  `CreatedOnlyAtKeyPath`; `StoreRuns.FailedCreateLeavesTemp` and `CreatedStillAtTemp` are runs in which
  it does not). A crash before the next sync of the directory can still bring a removed temporary name
  back, and one after it cannot (`RemovedTempMayReturn`, `SyncedRemovalStays`). The key paths are right
  either way.
- The directory sync makes a key survive a crash if and only if the store directory itself is durable;
  the parent is never synced (`StoreTheorems.SyncSurvivesCrashIff`; in `StoreRuns.SyncedKeyLost` the
  first create in a new directory succeeds, syncs and is lost).
- macOS: "no orphaned enclave item is left behind" by a failed create if and only if the rollback's
  delete, when it is reached, succeeds (`DarwinBackend.OrphanIff`; in `OrphanStays` it fails). That delete removes just the new key
  if and only if no older key has the name (`RollbackExactIff`).
- macOS: the guard keeps one key per name if and only if it does not miss an existing key whose name then
  gets a second one (`DarwinBackend.CreateKeepsUniqueIff`). `MissedGuardDuplicates` and
  `MissedGuardDeletes` are runs in which a failed guard leads to two keys of one name, and to the deletion
  of the older one.

## Further behaviour worth knowing

No comment in the code says otherwise, but a reader may expect it.

- Windows: a create that fails after `NCryptFinalizeKey` leaves its key stored, and no create ever deletes
  one. A name is stored afterwards if and only if the log has its successful finalization
  (`WindowsBackend.CreateStoresIff`); `FailedCreateKeepsKey` is such a run.
- Windows: `Sign` does not test whether the signer is closed; the handle 0 is refused by NCrypt.
- A decoding leaves at least 13 bytes of its input unallocated when it succeeds. On failures it does so if
  and only if the input does not end within the length of the second chunk, when it is 9 at the least
  (`BlobCodec.AllocationBoundIff`, `AllocationBoundTight`).
- A key that was deleted can come back, but only by a crash before the next sync of the directory
  (`AtomicStore.KeyOrigin`).

## Model

| member | source | states |
|---|---|---|
| StoreRefinement.NextRefines | key_linux.go:74-216 | Forward simulation: every event of the step-by-step protocol (a system call of any process with any outcome, a death, a power loss) is one legal step of the atomic create-if-absent map, taking effect where the code commits |
| StoreRefinement.RunRefines | key_linux.go:74-216 | Every run, of any number of processes with any failures and crashes, is a run of the atomic map with the same calls and answers |
| StoreRefinement.CrashRefines | key_linux.go:423-451 | After a power loss with any surviving subset of unsynced directory changes, each name is as it was at some moment since the last directory sync, or the whole store is gone because its directory was never durable |
| StoreInvariant.RunKeepsInv | key_linux.go:394-453 | In every reachable state every key path leads to a sealed blob, every process holding a temporary file owns its name and inode alone, and every open reader has a beginning of one whole blob |
| StoreInvariant.NextKeepsInv | key_linux.go:394-453 | One event of any kind keeps that invariant |
| StoreInvariant.OthersKeep | key_linux.go:411-444 | What one process may do leaves intact everything another process relies on: its temporary name, its inode's stage, the file it reads |
| StoreInvariant.CrashKeepsFs | key_linux.go:423-451 | Whatever a crash lets through, a key path afterwards is absent or names one complete durable blob, because write and sync come before link |
| FileSystem.CrashAgreesWithSomeMoment | key_linux.go:446-451 | Replaying any subset of the pending directory changes binds each name as at some earlier moment, never to a mixture |
| FileSystem.NameAfterCrashIff | key_linux.go:443-451 | Some crash leaves a name bound to an inode if and only if it was bound to it at some moment since the last directory sync |
| FileSystem.CrashMayScramble | key_linux.go:429-431 | Whatever was not synced, a crash may turn into anything, with any of the pending directory changes let through |
| AtomicStore.AnswerTookEffect | key_linux.go:74-216 | Linearizability: every answer is fixed at exactly one moment between invocation and return, as the call's legal effect on the map (or the two listed ways to fail), and the call changes the map at no other moment |
| StoreTheorems.AnswerInDirectory | key_linux.go:80-85 | At the call that fixes an answer the directory is as the answer says: absent before and then bound to the key's encoding for "created", bound for "already exists", bound to the encoding of the returned key for a load, unbound for "not found", unbound from then on for "deleted", unchanged otherwise |
| StoreTheorems.UnsuccessfulChangesNothing | key_linux.go:134-141 | A call that answers anything but "created" or "deleted", for whatever reason, has not changed the key map by any of its steps |
| AtomicStore.BalanceIsPresence | key_linux.go:80-85 | On the map without a crash, successful creates less successful deletes of a name is the change of its presence, so it is always 0 or 1 from empty |
| StoreTheorems.CreatesLessDeletes | key_linux.go:209-215 | The same over files: counted over any run without power loss, it is exactly whether the key path is bound |
| AtomicStore.RaceKept | key_linux.go:436-442 | Throughout a race for an absent name there is no winner while the name is absent and exactly one once it is there; every other decided create was told it exists |
| StoreTheorems.ExactlyOneWinner | key_linux.go:134-141 | When any number of racing creates of an absent name have all finished, nothing having failed and nobody deleting, exactly one made the key and all others report "already exists", however many calls came and went before |
| AtomicStore.KeysWereMade | key_linux.go:129-199 | Every key the map holds, or could be rolled back to by a crash, was made by a successful create of that very name |
| AtomicStore.SinceLastTouch | key_linux.go:129-199 | Without a crash, the present value of a name is that of its last successful create, undeleted since |
| AtomicStore.RecentSince | key_linux.go:446-451 | Every value a crash could roll the map back to is one it has had since the last flush or crash |
| AtomicStore.KeyOrigin | key_linux.go:129-199 | With any number of crashes, a key the map holds was made by a create of its name, and every create or delete of the name since was undone by a crash that no directory sync came before |
| StoreTheorems.LoadedKeyWasMade | key_linux.go:148-199 | The key a load takes effect with was returned by an earlier create of that name which nothing has durably undone since; without a power loss it is the one create live at that moment |
| StoreTheorems.LoadAnswersCreatedKey | key_linux.go:148-199 | End to end from the empty store: a load that answers a key took effect at one moment of its own call, with exactly the areas a create of that name answered with, through framing, file names and files |
| StoreTheorems.ReadNeverMalformed | key_linux.go:457-483 | A reader that reaches the end of its file always goes on with the key of that inode; a framing error is impossible over this store, also under concurrent creates and deletes |
| StoreTheorems.PublishedIsWhole | key_linux.go:391-442 | In every state reachable from the empty store, a bound key path names an inode that is durable, that its owner may read and write and nobody else may touch, and that is exactly one encoded key |
| StoreTheorems.SyncedInodeForever | key_linux.go:429-440 | Once synced, hence once published, an inode is never changed again by any process or crash |
| StoreTheorems.BindingStays | key_linux.go:436-444 | A bound key path is never rebound; only a successful delete of that name unbinds it |
| StoreTheorems.OwnTempOnly | key_linux.go:411-421 | Removing a temporary name removes the remover's own inode's name only, never another process's file or a key path, also when temporary names are reused |
| StoreTheorems.FailedCreateLeavesNothing | key_linux.go:416-421 | At its end a failed create has left no name of its file if and only if its cleanup's removal succeeded |
| StoreTheorems.RemovedTempMayReturn | key_linux.go:416-421 | Right after such a removal there is a crash that brings the temporary name back |
| StoreTheorems.SyncedRemovalStays | key_linux.go:446-451 | After a directory sync no crash brings back a name that was removed before |
| StoreTheorems.NoStrayTemps | key_linux.go:416-444 | As long as no removal of a temporary name fails, no process dies and the power stays, every temporary name in the store belongs to a running create that will still remove it |
| StoreTheorems.CreatedOnlyAtKeyPath | key_linux.go:439-444 | After a successful create its inode is reachable only by the key path if and only if removing the temporary name succeeded |
| AtomicStore.SecuredKept | key_linux.go:446-451 | A key bound in every value the map could be rolled back to stays through any number of crashes until deleted |
| StoreTheorems.SyncedKeySurvives | key_linux.go:446-451 | A key present at a successful directory sync in a durable store directory is present with the same content after any further run, crashes included, in which no delete of it succeeds |
| StoreTheorems.SyncSurvivesCrashIff | key_linux.go:446-451 | After the directory sync a key survives every possible crash if and only if the store directory itself is durable |
| StoreTheorems.AlreadyExistsReliableIff | key_linux.go:134-141 | A step that makes createKey report "already exists" implies the key is there, in whatever directory, if and only if it is not MkdirAll or CreateTemp failing with EEXIST |
| StoreRuns.FalseReport | key_linux.go:406-414 | A run from the empty store in which createKey reports that its key exists although no file does |
| StoreRuns.FailedCreateLeavesTemp | key_linux.go:416-421 | A run in which a create fails, its cleanup's removal fails too, and the temporary file stays |
| StoreRuns.KilledLeavesTemp | key_linux.go:411-423 | A run in which a process dies while it holds its temporary file, which stays |
| StoreRuns.CreatedStillAtTemp | key_linux.go:439-444 | A run in which a create succeeds and its inode keeps the temporary name beside the key path |
| StoreRuns.SyncedKeyLost | key_linux.go:406-451 | A run in which a create succeeds in a new store directory with every call working and the directory synced, and a crash loses the key with the directory |
| StoreRuns.SettledKeyKept | key_linux.go:446-451 | A run in which the directory has become durable by itself and the same crash leaves the key, with its content |
| StoreRuns.TwoCreates | key_linux.go:80-85 | A run with nothing failing in which a second create of a name is told that the key exists |
| StoreRuns.LoadedRun | key_linux.go:148-199 | A run with nothing failing in which another process loads the key that a create made |
| LinuxInterference.OthersAreElsewhere | key_linux.go:434-442 | Steps and deaths of other processes stay within the interference under which the imperative code is verified |
| LinuxSystem.DecisionMeans | key_linux.go:74-216 | What a log of calls decides was decided by exactly one of them |
| LinuxSystem.ReplyWasSaid | key_linux.go:134-141 | An answer that accords with its log was said by one call of a kind that can say it: "already exists" by the Stat, the Link, or an EEXIST of MkdirAll or CreateTemp, "not found" by the open or the remove, a failure by one that failed; no other call of the log could say any answer |
| LinuxBackend.WriteBlob | key_linux.go:394-453 | Under interference, and with every call free to fail, writeBlob takes exactly the protocol's steps in order and reports what the one call that decided said |
| LinuxBackend.CommitBlob | key_linux.go:423-442 | From the temporary file to the link: success means linked, with all the data synced and permission for the owner only; any failure is one that a call answered, with that error, and leads to the deferred cleanup |
| LinuxBackend.CreateUnder | key_linux.go:109-141 | The key answered is the one the device made last, and the handle kept was loaded from its areas; it fails for the TPM's sake if and only if the device refused a request or the public area holds no P-256 key |
| LinuxBackend.CreateOnDevice | key_linux.go:92-144 | Whichever step fails, the log ends with exactly one flush for each handle the device answered, parent before child, and then the one close; on success only the parent has been flushed and the live child is the signer's |
| LinuxBackend.CreateKey | key_linux.go:74-145 | All of createKey: store protocol followed to its answer, which is what the one deciding call said, the TPM's part if and only if it could not be opened, refused or gave no P-256 key; a signer if and only if created, owning the one device opened, whose usable key was loaded from the key made and stored; otherwise every answered handle of any opened device was flushed once, parent first, and the device closed |
| LinuxBackend.Locate | key_linux.go:382-389 | The path of a key is its blob file directly in the store directory, absent only without a configuration directory |
| LinuxBackend.ReadFile | key_linux.go:461-464 | The bytes returned are the complete contents of the file that was opened, whatever other processes do meanwhile |
| LinuxBackend.ReadBlob | key_linux.go:457-494 | readBlob follows the protocol; "not there" means the open said so and any other error that the open or a read failed; over this store it never fails on the framing |
| LinuxBackend.LoadUnder | key_linux.go:182-198 | Succeeds if and only if the device loads the areas read and they hold a P-256 key, and the handle kept was loaded from exactly them |
| LinuxBackend.LoadOnDevice | key_linux.go:167-199 | A signer unless the device refused a request or the key has no public point; after any failure one flush for each answered handle, parent first, then the close |
| LinuxBackend.LoadKey | key_linux.go:148-200 | All of loadKey, with the same answers, ownership and clean-up as createKey: the answer is what the one deciding call said, and a signer's device key was loaded from the key read |
| LinuxBackend.DeleteKey | key_linux.go:204-216 | deleteKey takes the protocol's one step and answers what Remove said, "not found" apart from other failures; it touches nothing but the store, so no open signer is affected |
| LinuxBackend.TpmSigner.Sign | key_linux.go:224-282 | RSA-PSS, then other hashes, then digests that are not 32 bytes for SHA-256, 48 for SHA-384 or 64 for SHA-512 are refused, each with its error and nothing sent, as by a closed signer; otherwise it fails if and only if the device refused, and a result is the DER form, 8 to 72 bytes, of the coordinates the device answered for this digest, hash and key; under the mutex the method does what one Sign of the goroutine machine does |
| LinuxBackend.TpmSigner.Close | key_linux.go:286-297 | The first Close sends one flush of the key and then closes the device, leaving nothing loaded, and returns the device's own result; later ones do nothing and succeed; each is one Close of the goroutine machine |
| TpmLedger.RulesMean | key_linux.go:92-107 | A device log that keeps the rules closes at most once and last, flushes no object twice, never holds more than two objects and never the handle 0 |
| TpmLedger.CommandsAreGood | key_linux.go:92-127 | In a log that keeps the rules every command comes before the close and is for handles given out before and not flushed since, and no handle is given out twice or is 0 |
| TpmLedger.CleanedUpMeans | key_linux.go:92-107 | After a clean-up every answered handle was sent exactly one flush, no other handle any, and the device was closed exactly once |
| TpmLedger.Transport.Flush | key_linux.go:359-365 | Flushing the handle 0 sends nothing; any other is sent one flush, whose failure may leave the object loaded |
| SignerProtocol.RunKeepsInv | key_linux.go:63-69 | In every interleaving of goroutines in Sign and Close, each signer is at rest or used by exactly the goroutine that holds its mutex |
| SignerProtocol.NextKeepsInv | key_linux.go:247-268 | Each lock, send, receive, close and unlock keeps that |
| SignerProtocol.MutualExclusion | key_linux.go:59-62 | At most one goroutine is between lock and unlock of a signer |
| SignerProtocol.RefusedSignOnlyFinishes | key_linux.go:225-245 | A Sign with arguments it refuses takes no mutex, changes no signer, and can only return |
| SignerProtocol.TypicalLog | key_linux.go:109-127 | A parent, a key under it, the key loaded and the parent flushed is such a device as a signer is handed |
| SignerProtocol.SectionUndisturbed | key_linux.go:247-268 | While a goroutine holds a signer's mutex, no step of any other goroutine changes the signer or where the holder stands |
| SignerProtocol.SignSections | key_linux.go:247-268 | The results that one Sign can have between lock and unlock: told closed and nothing sent, failed with or without its command sent, or its own response |
| SignerProtocol.CloseSections | key_linux.go:286-297 | One Close between lock and unlock flushes and closes an open device, and leaves a closed one alone |
| SignerProtocol.ResponseReachesSender | key_linux.go:59-62 | While a call waits for its response, the only response on the device answers the command that this call sent |
| SignerProtocol.SignatureIsOwn | key_linux.go:265-281 | The signature a call returns is the response to its own command |
| SignerProtocol.DeviceUsedByTheRules | key_linux.go:247-297 | Over every run no command reaches a closed device or a flushed key; the key is flushed and the device closed at most once, and a closed device was flushed exactly once before |
| SignerProtocol.ClosedForGood | key_linux.go:249-251 | From the moment a signer is closed, even before the mutex is given back, nothing reaches its device any more and every later Sign that takes the mutex is told it is closed |
| SignerProtocol.CloseHasClosed | key_linux.go:286-297 | When any call of Close is about to return, the device is closed |
| SignerProtocol.WithoutMutexResponsesCross | key_linux.go:59-62 | Without the mutex there is an interleaving, from any handed-over device, in which one Sign returns the response to another's command |
| LinuxLifetime.RunProjects | key_linux.go:74-297 | A history of interleaved creates, loads, deletes, Signs and Closes is a run of the store protocol and a run of the signer machine, so every theorem about either holds of it |
| LinuxLifetime.SuccessHandsOut | key_linux.go:143-199 | A create or load that has succeeded hands out an open signer for its name and key over any device the code leaves, and cannot return without |
| LinuxLifetime.FailureJustReturns | key_linux.go:134-141 | Any other answer returns without a signer |
| LifetimeRuns.LoadedSignerLives | key_linux.go:148-297 | A run from the empty store in which a key is created, loaded by another process, signed with once and closed: after the device as handed over come exactly the command, the flush and the close |
| LinuxLifetime.SignerKeyWasMade | key_linux.go:143-199 | Over any history, every signer handed out is for a key that a create of the name asked for has made |
| LinuxLifetime.SignerLifetime | key_linux.go:286-297 | Over any history, deletes and crashes of the store included, each signer's key is flushed and its device closed at most once, both exactly if it is closed, and its device is never used against the rules |
| LinuxLifetime.ClosedOnceAndForAll | key_linux.go:286-297 | Once any Close of a signer has come to its return, in every later state its key has been flushed exactly once, its device closed exactly once, and nothing sent since |
| BlobCodec.DecodeExact | key_linux.go:466-483 | Decoding gives a key if and only if the input begins with the encoding of that key and its lengths fit 32 bits |
| BlobCodec.DecodeByBytes | key_linux.go:466-483 | In literal bytes: "bad magic" unless the input begins with 4B 50 54 4D, "bad version" unless 01 follows, and a key if and only if its whole layout begins the input |
| BlobCodec.EncodeIsLayout | key_linux.go:398-404 | A framed key is 4B 50 54 4D 01, then the four base-256 digits of the public length and the public area, then the same for the private area |
| BlobCodec.RoundTrip | key_linux.go:398-404 | Decoding what was framed returns the key if and only if both lengths fit 32 bits |
| BlobCodec.LongAreaMisread | key_linux.go:401-403 | An area of 2^32 bytes is framed with the length 0 and not read back |
| BlobCodec.PrefixFree | key_linux.go:398-404 | No encoded key is a prefix of another's encoding |
| BlobCodec.TruncationRejected | key_linux.go:466-483 | Every proper prefix of an encoded key is rejected |
| BlobCodec.TrailingBytesIgnored | key_linux.go:476-483 | Bytes after a complete blob do not change the result |
| BlobCodec.ChunkAtExact | key_linux.go:499-512 | A chunk is read at a position if and only if its framing stands there |
| BlobCodec.AllocationBound | key_linux.go:496-507 | Chunk buffers take at most the input length less 13 on success, less 9 on any failure |
| BlobCodec.AllocationBoundIff | key_linux.go:496-507 | At least 13 bytes of an input that long stay unallocated if and only if it is not a good beginning with a first chunk and then less than a length |
| BlobCodec.AllocationBoundTight | key_linux.go:496-507 | A blob cut off after its first chunk fails having allocated all but nine bytes of the input |
| BlobCodec.FrameBlob | key_linux.go:398-404 | What is appended is that layout, for lengths that fit, and decodes back to the key if and only if they do |
| BlobCodec.Reader.ReadChunk | key_linux.go:499-512 | The cursor reads the chunk that stands at its position, moves past it, stays inside the input, and makes a buffer only for a chunk that is all there |
| BlobCodec.Reader.ReadBlob | key_linux.go:466-483 | The cursor-based reader gives, for every input, the result and error that its literal bytes call for, and allocates what the bound speaks of |
| Naming.NameRoundTrip | key_linux.go:387 | Every byte string's encoded name uses the URL alphabet only and decodes back to it |
| Naming.Vectors | key_linux.go:387 | The six-byte test vector of section 10 of RFC 4648, and one with both characters particular to the URL alphabet |
| Naming.TempFileIff | key_linux.go:411 | A temporary name is ".tpmkey-" and then at least one digit and only digits |
| Naming.BlobFileInjective | key_linux.go:380-387 | Different key names have different files |
| Naming.BlobFileIsNotTemp | key_linux.go:387-411 | No key's file ever has a temporary file's name |
| Naming.BlobFileIsElement | key_linux.go:380-388 | A key's file is a single path element, never empty, `.` or `..` |
| Naming.BlobPathContained | key_linux.go:382-389 | After cleaning, every key lies directly in the one store directory, for every name and configuration directory |
| Naming.BlobPathPlain | key_linux.go:382-389 | For a configuration directory of plain elements, rooted or not, the path is those elements, "key-protecc", and the encoded name with ".tpmkey" |
| Naming.CleanRooted | key_linux.go:388 | A cleaned path is rooted if and only if it began with "/" |
| Naming.CleanSpecial | key_linux.go:388 | An empty or "." element at the end changes nothing, and ".." takes back an element, stays at the root, or remains at the front of a relative path |
| Naming.BlobPathInjective | key_linux.go:382-389 | Different names never share a path |
| Der.SignatureExact | key_linux.go:275-281 | A strict decoder accepts bytes as (r, s) if and only if they are the emitted encoding: the form is canonical and unique |
| Der.SignatureRoundTrip | key_linux.go:275-281 | Decoding an emitted signature returns the pair |
| Der.SignatureInjective | key_linux.go:275-281 | Equal encodings come from equal pairs |
| Der.SignatureLength | key_linux.go:275-281 | Coordinates below 2^256 always encode to 8 to 72 bytes |
| Der.SignatureLayout | key_linux.go:275-281 | In literal bytes: 30, a one-byte length, 02, a length and r, 02, a length and s, where both contents are the shortest with the sign bit clear |
| Der.IntegerExact | key_linux.go:275-277 | An INTEGER's content is accepted as n if and only if it is the minimal form with a clear sign bit |
| Der.ContentIff | key_linux.go:275-277 | An INTEGER's content is the one byte string with its value, a clear sign bit, and no leading zero byte that the sign does not need |
| Der.WindowsDer | key_windows.go:240-249 | Exactly 64 raw bytes are converted, and the result decodes to the values of the two halves in order |
| Der.LinuxDer | key_linux.go:275-281 | The result decodes to the values of the two buffers in order, whatever their width |
| Der.BackendsAgree | key_windows.go:240-249 | For one signature Linux and Windows emit the same bytes, whatever zeros lead the Linux buffers |
| EccBlob.ParseExact | key_windows.go:271-292 | A blob parses to (x, y) if and only if its first 72 bytes are the fixed-width blob of that point |
| EccBlob.PrintLayout | key_windows.go:271-287 | In literal bytes the blob of a point is 45 43 53 31 20 00 00 00 and the two 32-byte coordinates |
| EccBlob.ParseErrors | key_windows.go:271-287 | Too short is less than 8 bytes; otherwise the first four bytes, then the next four, then a length under 72 decide the error, in literal bytes |
| EccBlob.PrintParse | key_windows.go:271-292 | Printing and parsing are inverse for all coordinates below 2^256 |
| WindowsBackend.CreateKey | key_windows.go:37-94 | The calls made are exactly those of one of six endings, decided by the first call that fails; a failure frees every handle it opened, provider last; a success hands exactly one new key handle of that name with its own provider to the signer, with the exported point |
| WindowsBackend.FinishKey | key_windows.go:71-90 | Usage, finalization and export in this order, each only after the one before succeeded; the key is stored if and only if finalized |
| WindowsBackend.CreateStoresIff | key_windows.go:65-90 | By NCrypt's rules the name is stored after a create's calls if and only if they include its successful finalization, and they never delete a key |
| WindowsBackend.FailedCreateKeepsKey | key_windows.go:82-90 | A run in which the export fails: no signer, no open handle, and the key is stored |
| WindowsBackend.LoadKey | key_windows.go:97-132 | A signer if and only if every call works and the name is stored; it owns one new key handle of that name and its provider; a failure leaves no handle open, and nothing stored changes |
| WindowsBackend.DeleteKey | key_windows.go:134-159 | Succeeds if and only if every call works and the name is stored, and only then removes it; whatever fails, no handle stays open and none is freed twice |
| WindowsBackend.ExportPublicKey | key_windows.go:175-196 | After a size query and an export into a buffer of that size, the point is the one whose printed form begins the buffer |
| WindowsBackend.TpmSigner.Sign | key_windows.go:211-250 | The same refusals as on Linux, which reach no device; otherwise one signature is asked for, of this digest with this handle, and one comes if and only if the handle is live, both calls work, and the raw one has 64 bytes and fits the size answered; it is the DER form of the two halves |
| WindowsBackend.TpmSigner.Close | key_windows.go:252-262 | The first Close frees the key and then its provider, later ones free nothing |
| WindowsBackend.FreesAreGood | key_windows.go:42-69 | In a log that keeps NCrypt's rules a handle is freed or used up only while it is held, so never twice, and a provider only when none of its keys is held |
| WindowsBackend.OpensAreGood | key_windows.go:60-69 | In such a log no handle is 0 or given out while it is held, and a key only under a provider that is held |
| WindowsBackend.Session | key_windows.go:37-262 | After any sequence of creates, loads, deletes and repeated Closes, with NCrypt failing anywhere, the live handles are exactly those of the unclosed signers, no two of which share one |
| DarwinBackend.CreateKey | key_darwin.go:35-79 | The guard's load comes first, a key is added only directly after it found none, and a failed export is followed by one release and one delete of the name, and nothing else; a reference stays retained if and only if a signer is returned |
| DarwinBackend.LoadKey | key_darwin.go:82-109 | A signer if and only if the load finds a key and its public key can be exported; its reference is to some key with the name, a failure retains none, and nothing else is asked of the framework |
| DarwinBackend.DeleteKey | key_darwin.go:112-123 | Success removes every key with the name, failure none |
| DarwinBackend.EnclaveSigner.Close | key_darwin.go:197-203 | The reference is released by the first Close only |
| DarwinBackend.ReleasesAreGood | key_darwin.go:62-70 | In a log that keeps the rules a reference is exported from or released only while it is held, so never released twice |
| DarwinBackend.RetainsAreGood | key_darwin.go:46-58 | In such a log no reference is nil or handed out while it is held |
| DarwinBackend.CountOthers | keychain_darwin.c:155-167 | What a delete leaves has no key of the name and as many as before of every other name |
| DarwinBackend.OthersExact | keychain_darwin.c:155-167 | What a delete leaves are exactly the keys of other names |
| DarwinBackend.LoadDeterministic | key_darwin.go:41-45 | With one key per name a load can find only that one, whichever match the keychain picks |
| DarwinBackend.CreateTraceItems | key_darwin.go:41-70 | What the calls of each of createKey's endings leave in the keychain, by the framework's rules |
| DarwinBackend.CreateKeepsUniqueIff | key_darwin.go:41-51 | The calls of a create keep one key per name if and only if they did not make and leave a key whose name was already there |
| DarwinBackend.NamesStayUnique | key_darwin.go:41-51 | Over any log of calls in which keys are added under the guard only and a guard that found none was right, every name has at most one key |
| DarwinBackend.RollbackExactIff | key_darwin.go:60-70 | The calls of a create with a successful rollback restore the keychain if and only if no older key had the name |
| DarwinBackend.OrphanIff | key_darwin.go:32-34 | A failed create leaves its new key in the keychain if and only if the rollback's delete was made and failed |
| DarwinBackend.OrphanStays | key_darwin.go:60-76 | A run in which the export and then the rollback's delete fail, and the new key stays without a signer |
| DarwinBackend.MissedGuardDuplicates | key_darwin.go:41-59 | A run in which the guard fails although the key is there, and two keys of one name result |
| DarwinBackend.MissedGuardDeletes | key_darwin.go:60-70 | A run in which the guard and then the export fail, and the rollback deletes the older key, which an open signer still refers to |
| DarwinBackend.Session | key_darwin.go:35-203 | After any sequence of requests, however the framework behaves, the retained references are those of the open signers, one each; keys were added under the guard only, and if the guards were right every name has at most one key |

## Left out

- `cert.go`, `main.go` and `report.go`: certificates from fixed templates, the command line, printing and timing; little logic of their own.
- `osinfo_*.go`, `syscall_windows.go`, `zsyscall_windows.go`, build scripts: system queries, generated wrappers, packaging.
- go-tpm, NCrypt, the Security framework, elliptic curves, randomness: libraries that are not part of this model; their calls are steps with any outcome the assumptions above allow.
- `eccPublicKey`, `parseECPublicKey` and the unmarshaling of TPM areas: a step that succeeds or fails; what it yields is the area itself.
- The text of error messages, and `secError`, `secStatusName`, `cString`.
- Durability of a delete: `deleteKey` syncs nothing and the code makes no such claim; the model lets a crash undo it.
- File-name length limits, case-insensitive file systems, links and other programs in the store directory.
- Concurrent use of the Windows and macOS signers and of create on macOS: there is no mutex there and the guard is check-then-act, so these are sequential histories.
- The Sign of the macOS backend: argument checks around one framework call.
- The second close of the temporary file in the deferred cleanup of `writeBlob`, which has no effect.
- A size of zero from an NCrypt size query, for which the code would index an empty slice: modelled as a failure of the call.
- Der.SignatureExact: lengths whose own length needs more than 126 octets are neither encoded nor accepted; no byte string in a computer has one.
