# SecureStor: verified models

SecureStor is an artifact repository written in Go. This project models its stateful components in
Dafny and proves what they promise over whole runs: for every input, and for every interleaving and
failure that the steps of each model allow.

Each component is written twice. A *machine* (`Next`, and `Exec` or `Run` over a sequence of events)
says what one atomic step does to the state, with every failure the code can meet as an event or a
parameter. A *class* has the fields and methods of the source and is proved, step by step, to do what
the machine does. The theorems are about all runs of the machine, so they hold for any sequence and
any interleaving of calls.

| file | component |
|---|---|
| `Utf8.dfy` | what a byte string becomes in a JSON string field |
| `Kms.dfy`, `Envelope.dfy` | key management provider, the XOR mock client, envelope encryption |
| `KeyCache.dfy`, `TmkTable.dfy`, `TmkService.dfy` | versioned tenant master keys and their cache, on the heap |
| `Rewrap.dfy`, `RewrapJob.dfy` | re-wrapping data keys after a rotation: one artifact, then the paginated job |
| `L2Storage.dfy` | byte-budgeted LRU cache with time-to-live |
| `Division.dfy`, `UploadPlan.dfy`, `ChunkedUpload.dfy` | chunk arithmetic; concurrent upload, expiry and completion handlers |
| `Paths.dfy`, `MultiTier.dfy` | what file paths become; Redis and disk tiers with delayed promotion |
| `Hub.dfy` | WebSocket broadcast hub and its writers |
| `RefreshTokens.dfy` | refresh-token rotation |
| `Totp.dfy`, `Failover.dfy`, `Retry.dfy`, `NameCodecs.dfy` | one-time passwords, failover monitor, retry loop, name codecs |

## What was found

Where a promise does not hold of the code, the model keeps the code, a lemma gives a family of inputs
on which it fails, and another says exactly when it holds.

- A re-wrapped key is put into a JSON string as raw bytes. With the XOR mock no data key is ever lost:
  every record read from JSON is text, and re-wrapping it yields that same text
  (`Rewrap.MockNeverLosesDek`). With any other lawful provider whose ciphertexts have a fixed length per
  plaintext, a re-wrap loses the data key exactly if the new ciphertext is not valid UTF-8
  (`Rewrap.RetryKeepsDekIff`), and it happens to records the code can read (`Rewrap.SuccessfulRewrapLosesDek`).
- The migration declares one key row per tenant, so a tenant that has a key can never rotate it
  (`TmkTable.DeclaredSchemaBlocksRotation`). All version results hold under both schemas.
- The L2 cache's counter keeps the size of every entry a lookup throws away. The real byte bound holds
  anyway; once the thrown-away total exceeds the budget, every store leaves a single entry
  (`L2Storage.OvercountDegradesToOneEntry`).
- A negative chunk size c is accepted. For a size T > 1 the session announces no chunks, and can be
  completed at once to an empty artifact, exactly if T - 1 < -2c (`ChunkedUpload.EmptyCompletionIff`);
  otherwise it announces a negative number and can never be completed (`ChunkedUpload.NeverCompleted`).
- The halves of a store, the promotions and the failures that make the multi-tier cache return other bytes
  than the last stored, or bring an invalidated artifact back, are exactly those of
  `MultiTier.DiskHalfIsFreshIff`, `MultiTier.StoreIsFreshIff` and `MultiTier.GoneIffNoPromotion`; two
  stores of one key can cross
  (`MultiTier.CrossedStoresDisagree`); and hits are genuine exactly for keys that do not share files
  (`MultiTier.GenuineIffSeparate`). Files are rewritten in place: a lookup during a write gets as much as is there
  (`MultiTier.OverlappingLookupIff`), and may promote it.
- A client's reader answers pings on the channel that the hub closes: a ping after the eviction, or an answer
  still blocked at the eviction, crashes the process, and no other step of hub, writers or readers does
  (`WebSocketHub.CrashesIffPongMeetsEviction`). A flush that fails loses the whole batch, up to 257 items.
- Rotation validates outside its transaction, so two concurrent rotations of one token both succeed
  (`RefreshTokens.ConcurrentRotationForks`); the table stays in order along a run exactly if every commit
  finds its token childless (`RefreshTokens.RunKeepsIff`), and a revoked session stays revoked exactly if no
  commit goes through for one of its tokens (`RefreshTokens.RevokedSessionStaysIff`).
- Where no token expires before the one it was rotated from, token clean-up works on whole rotation chains
  or not at all: one session rotated for longer than its first token lasts keeps every stale token
  (`RefreshTokens.CleanupTakesWholeChains`).
- A one-time password's row is read, checked and updated by separate statements. Calls that overlap can use one
  code several times (`Totp.OverlappingCallsAcceptTwice`): after the first use as often as there are other
  requests past their checks with the code, or past reading a row that does not show the use, and no more
  (`Totp.SpentUses`, `Totp.UsedAgainIffRival`).
- The replay check compares with the current code only, so the previous step's code can be used again
  (`Totp.AcceptedAgainIff`, `Totp.PreviousCodeReplays`).
- A check in which a time step begins can refuse that step's code, generated while it runs
  (`Totp.StraddlingCheckRefuses`); with the codes of the four steps around it distinct, it accepts exactly the
  code of the step it began in, and of the one before if its second reading still fell into that step
  (`Totp.SkewTolerated`).

## Modelling decisions

- The KMS and the cipher are abstract, with the law that decrypting undoes encrypting; the mock client's
  loops are proved to meet it. `encrypt` takes the randomness of the call as an argument.
- Clocks, random bytes, database and disk failures are parameters. Failures the code reports are
  results, never preconditions.
- Integers are unbounded; Go's truncating division is written out where operands can be negative.
- Ids (UUIDs) are natural numbers ordered as the database orders them. The job's first query asks for ids
  above the all-zero id, so that id is never on a page, and the model says so.
- Fields that exist only for the proofs are `ghost`: history (what was ever stored, used, given out) and
  the state of other handlers that are between two steps.
- HMAC-SHA1 is any function to 20 octets; no law about it is needed.
- The database clock that stamps `last_used_at`, a `TIMESTAMP` without zone
  (`migrations/011_mfa_webauthn_support.sql:47`), is taken to agree with the process clock: same time, UTC session.
- The refresh-token table is the one of `migrations/010_oauth2_m2m_support.sql`, whose header calls it deprecated and
  a reference only; `internal/database` does not create that table. Its unique hash and its parent reference without a
  delete rule are what insertion and clean-up are modelled on.
- A file path is the list of segments that `filepath.Join` leaves after cleaning.

## Model

| member | source | states |
|---|---|---|
| Utf8.ThroughJsonExact | internal/encrypt/rewrap_service.go:309-314 | a byte string stored in a JSON string field comes back unchanged if and only if it is valid UTF-8 |
| Utf8.RuneIffEncoding | internal/encrypt/rewrap_service.go:309-314 | a byte string begins with a rune exactly if it begins with the encoding of a code point, of that length |
| Utf8.TextDecodes | internal/encrypt/rewrap_service.go:309-314 | valid UTF-8 encodes some sequence of code points |
| Utf8.EncodingsAreText | internal/encrypt/rewrap_service.go:309-314 | and every such encoding is valid UTF-8 |
| Utf8.ThroughJsonIsText | internal/encrypt/rewrap_service.go:272-275 | whatever went in, valid UTF-8 comes out and a second trip changes nothing |
| Utf8.ThroughJsonGrows | internal/encrypt/rewrap_service.go:309-314 | a byte string that is not valid UTF-8 comes back longer, any other with its length |
| Kms.MockIsLawful | internal/encrypt/kms_client.go:89-107 | the mock meets the KMS law: decrypt(k, encrypt(k, x)) is x, for every key id and x |
| Kms.MockKmsClient.constructor | internal/encrypt/kms_client.go:79-85 | the development client's master key is 32 zero bytes |
| Kms.MockKmsClient.Encrypt | internal/encrypt/kms_client.go:89-97 | the loop fills a fresh buffer with the provider's ciphertext, whatever the salt |
| Kms.MockKmsClient.Decrypt | internal/encrypt/kms_client.go:100-107 | the loop fills a fresh buffer with the provider's plaintext |
| Envelope.OpensWithItsKey | internal/encrypt/encryption_service.go:109-140 | an artifact decrypts as soon as the stored key unwraps to the one it was sealed with, exactly for named tenants |
| Envelope.RoundTrip | internal/encrypt/encryption_service.go:62-140 | decrypting an encrypted artifact gives it back if and only if the tenant id is not empty |
| Envelope.EncryptsExactly | internal/encrypt/encryption_service.go:62-106 | when an encryption gives a result, what is in it field by field, and that the data key leaves only as the provider's ciphertext |
| Envelope.DecryptsExactly | internal/encrypt/encryption_service.go:109-140 | only what the cipher opened under the unwrapped key comes out, and each way to fail has its own error |
| Envelope.ZeroBytes | internal/encrypt/encryption_service.go:267-271 | every byte of the buffer becomes zero |
| KeyCaches.KeyCache.Get | internal/encrypt/key_cache.go:35-53 | hit exactly for a present unexpired entry; the result is a fresh private copy and the cache is unchanged |
| KeyCaches.KeyCache.Set | internal/encrypt/key_cache.go:56-68 | stores the caller's bytes as they are now, under a buffer no caller knows |
| KeyCaches.KeyCache.Delete | internal/encrypt/key_cache.go:71-80 | removes one entry and zeroes its buffer; no buffer ever handed out or passed in changes |
| KeyCaches.KeyCache.Clear | internal/encrypt/key_cache.go:83-93 | empties the cache and zeroes all its buffers; no caller's buffer changes |
| KeyCaches.KeyCache.Cleanup | internal/encrypt/key_cache.go:96-111 | removes and zeroes exactly the expired entries, keeps the others' bytes; no caller's buffer changes |
| TmkTable.Deactivate | internal/encrypt/tmk_service.go:183-190 | afterwards no row of the tenant is active and every other row is as before |
| TmkTable.ActiveRow | internal/encrypt/tmk_service.go:115-132 | returns an active row of the tenant if and only if there is one |
| TmkTable.ActiveRowIsNewest | internal/encrypt/tmk_service.go:171-176 | with dense versions the active row is the newest, and exists exactly if the tenant has rows |
| TmkTable.InsertRefused | internal/database/migrations.go:2356-2373 | an insert is refused exactly when the tenant has a row the uniqueness rule forbids |
| TmkTable.ApplyKeepsDense | internal/encrypt/tmk_service.go:44-253 | one call, under either schema and any failure, keeps each tenant's versions 1..n with only n active |
| TmkTable.RunKeepsDense | internal/encrypt/tmk_service.go:44-253 | the same over every run of creations and rotations |
| TmkTable.CreateOnlyOnce | internal/encrypt/tmk_service.go:57-91 | creation succeeds exactly for a tenant without rows, gives version 1, and leaves other tenants alone |
| TmkTable.RotateAddsVersion | internal/encrypt/tmk_service.go:171-238 | with one row per version rotation always succeeds: old rows retired, version n + 1 added, other tenants untouched |
| TmkTable.DeclaredSchemaBlocksRotation | internal/database/migrations.go:2358 | under UNIQUE(tenant_id) a rotation succeeds exactly for a tenant that has no key |
| TmkTable.DeclaredSchemaKeepsOneVersion | internal/database/migrations.go:2356-2373 | under UNIQUE(tenant_id) no run ever gives a tenant a second row |
| TmkServices.TmkService.CreateTmk | internal/encrypt/tmk_service.go:44-106 | any failing step leaves table and cache as they were; success caches the generated bytes although the buffer is zeroed |
| TmkServices.TmkService.GetActiveTmk | internal/encrypt/tmk_service.go:109-161 | from the cache or not, the result equals decrypting the active row; the buffer is the caller's own |
| TmkServices.TmkService.FetchKey | internal/encrypt/tmk_service.go:137-157 | a fresh cached key is returned even if the provider fails and changes nothing; a miss decrypts the row and fills the cache |
| TmkServices.TmkService.RetireActive | internal/encrypt/tmk_service.go:171-195 | the rotation works on a copy of the rows and drops the old key from the cache at once |
| TmkServices.TmkService.CommitVersion | internal/encrypt/tmk_service.go:209-247 | rows change only if insert and commit both succeed; then the new key is cached and its buffer wiped |
| TmkServices.TmkService.RotateTmk | internal/encrypt/tmk_service.go:164-253 | any failing step rolls back to the old rows; cached keys stay plaintexts of their rows; callers' buffers keep their bytes |
| TmkServices.TmkService.UseActiveTmk | internal/encrypt/rewrap_service.go:172-182 | fetching and then zeroing a key leaves every cached key the plaintext of its row |
| TmkServices.TmkService.CleanupTick | internal/encrypt/key_cache.go:96-111 | a clean-up tick between two calls drops the expired keys, keeps every other the plaintext of its row, and changes no caller's buffer |
| TmkServices.CachedEqualsUncached | internal/encrypt/tmk_service.go:137-157 | a cached key for (tenant, version) is what decrypting that row gives |
| Rewrap.MetaStaysWhole | internal/encrypt/rewrap_service.go:308-329 | no step ever leaves meta.json partly written: it is the old record or the complete new one, of strictly higher version |
| Rewrap.VersionNeverFalls | internal/encrypt/rewrap_service.go:262-345 | over any run with failures and crashes the record stays and its version never decreases |
| Rewrap.CrashSafe | internal/encrypt/rewrap_service.go:262-345 | over any run the record unwraps, under the key id it names, to the original data key, given text ciphertexts |
| Rewrap.RecordKeepsArtifact | internal/encrypt/rewrap_service.go:308-312 | over any run with failures and crashes the record keeps repository, algorithm and nonce |
| Rewrap.ArtifactStillOpens | internal/encrypt/encryption_service.go:109-140 | after any such run DecryptArtifact returns the original plaintext from the key, key id and nonce the record holds then |
| Rewrap.RetryReachesNewVersion | internal/encrypt/rewrap_service.go:262-345 | a failure-free retry after a crash anywhere succeeds exactly if the record is already new or the old master key can be derived, and then installs exactly the re-wrapped record |
| Rewrap.KekNamesDiffer | internal/encrypt/rewrap_service.go:302 | key ids of one repository for different versions differ |
| Rewrap.KeepsDekIffText | internal/encrypt/rewrap_service.go:302-312 | for a lawful provider with length-regular ciphertexts, a re-wrapped record unwraps to the data key if and only if the ciphertext drawn is valid UTF-8 |
| Rewrap.RetryKeepsDekIff | internal/encrypt/rewrap_service.go:262-345 | the same for a whole retry after a crash anywhere: the key is kept exactly if nothing is re-wrapped or the ciphertext is text |
| Rewrap.MockDrawsText | internal/encrypt/kms_client.go:89-107 | with the mock, under any master key, every ciphertext along every run is text |
| Rewrap.MockNeverLosesDek | internal/encrypt/kms_client.go:89-107 | so with the mock no run with any failures and crashes loses a data key |
| Rewrap.SuccessfulRewrapLosesDek | internal/encrypt/rewrap_service.go:262-345 | with a key per key id, a readable record that unwraps is replaced, by an attempt reporting success, by one that does not |
| Rewrap.ArtifactStore.RewrapArtifact | internal/encrypt/rewrap_service.go:262-345 | the call is a run of the machine on its own directory only; success means version >= new, failure leaves meta.json as it was; either way repository, algorithm and nonce stay |
| Rewrap.ArtifactStore.Prepare | internal/encrypt/rewrap_service.go:266-312 | reads, checks the version, derives the old KEK, unwraps and wraps, writing nothing; the prepared record is of the same artifact |
| Rewrap.ArtifactStore.Publish | internal/encrypt/rewrap_service.go:314-329 | write-temp-then-rename: the record becomes the prepared one or stays, whichever step fails |
| RewrapJobs.QueryPage | internal/encrypt/rewrap_service.go:193-201 | a page is ascending, past the last id, at most n long, and skips nothing before its end |
| RewrapJobs.ScanRows | internal/encrypt/rewrap_service.go:219-230 | exactly the rows that scan are kept, in order |
| RewrapJobs.FetchRows | internal/encrypt/rewrap_service.go:193-235 | undisturbed, a batch leaves out no id between the last one and its end |
| RewrapJobs.OldKeyDerivable | internal/encrypt/rewrap_service.go:348-371 | the old key can be derived exactly if the tenant has a row of that version that the provider opens |
| RewrapJobs.SuccessMeansNewVersion | internal/encrypt/rewrap_service.go:277-311 | an attempt that reports success left its artifact at version >= new |
| RewrapJobs.JobKeepsReadable | internal/encrypt/rewrap_service.go:161-259 | whatever attempts were made and failed, every artifact's record still unwraps to its data key, if the ciphertexts these attempts drew are text or the client is the mock |
| RewrapJobs.ListsAscending | internal/encrypt/rewrap_service.go:199-253 | the order of attempts is strictly ascending and lists each attempted id once |
| RewrapJobs.RewrapJob.constructor | internal/encrypt/rewrap_service.go:92-137 | the job starts running with the artifact count as total and 100 as the default batch size |
| RewrapJobs.RewrapJob.Cancel | internal/encrypt/rewrap_service.go:394-409 | only a running job can be relabelled as cancelled |
| RewrapJobs.RewrapJob.ProcessBatch | internal/encrypt/rewrap_service.go:238-254 | attempts exactly the batch's artifacts in ascending order and counts each outcome |
| RewrapJobs.RewrapJob.ProcessNextBatch | internal/encrypt/rewrap_service.go:188-258 | one turn of the loop makes progress or ends it; undisturbed it leaves no id behind |
| RewrapJobs.RewrapJob.Finish | internal/encrypt/rewrap_service.go:162-169 | "completed" if and only if every artifact of the table was attempted and none failed |
| RewrapJobs.RewrapJob.Process | internal/encrypt/rewrap_service.go:161-259 | terminates; ends completed or failed even if cancelled; completed implies every artifact is at the new version; Processed = Success + Failed; untouched artifacts are unchanged; no data key is lost with the mock, or if what was drawn is text; undisturbed it attempts every id but zero |
| L2Storage.StepKeepsBalance | internal/api/storage_l2.go:62-203 | every operation keeps usage = live sizes + sizes dropped by lookups, and the byte bound |
| L2Storage.RunAccounting | internal/api/storage_l2.go:62-306 | over every run: exact accounting, a counter that is never negative, and bytes held within the budget less what lookups threw away, unless at most one entry is held |
| L2Storage.DroppedOnlyByGet | internal/api/storage_l2.go:71-91 | only a lookup that throws an entry away adds to the over-count, by that entry's size |
| L2Storage.OvercountDegradesToOneEntry | internal/api/storage_l2.go:109-143 | once the over-count exceeds the budget, each successful store leaves just its own entry |
| L2Storage.VictimsMinimal | internal/api/storage_l2.go:289-303 | the evicted prefix frees enough unless it is everything, and no shorter prefix does |
| L2Storage.EvictTakesPrefix | internal/api/storage_l2.go:289-303 | eviction removes exactly that prefix of the listing and lowers the counter by its size |
| L2Storage.EvictionIsLruAndMinimal | internal/api/storage_l2.go:278-306 | victims were accessed no later than survivors; enough is freed or nothing is left; without the last victim it would not be enough |
| L2Storage.RunRefines | internal/api/storage_l2.go:62-166 | over every run each cached entry stems from what a plain map holds for its key |
| L2Storage.HitIsLastStored | internal/api/storage_l2.go:62-94 | a hit is what was last stored for the key, not deleted and not past its TTL; bytes written to by a holder are caught up to digest collisions |
| L2Storage.StoredIsHit | internal/api/storage_l2.go:97-146 | after a successful store the key hits with those bytes exactly until its TTL passes |
| L2Storage.RunTracks | internal/api/storage_l2.go:62-146 | over every run each entry's access time is when its key was last stored or found |
| L2Storage.EvictedUsedLeastRecently | internal/api/storage_l2.go:278-306 | after any run a store evicts only keys used no later than any it spares |
| L2Storage.GetExact | internal/api/storage_l2.go:62-94 | what a hit and each kind of miss change, and nothing else |
| L2Storage.StoreEvictsJustEnough | internal/api/storage_l2.go:107-120 | a store that fits evicts nothing; otherwise what goes makes room or is everything, and one victim could not have been spared |
| L2Storage.CleanupExact | internal/api/storage_l2.go:182-203 | a clean-up keeps exactly the unexpired entries, unchanged |
| L2Storage.L2StorageImpl.GetEntry | internal/api/storage_l2.go:62-94 | returns what the machine's lookup returns and keeps accounting and bound |
| L2Storage.L2StorageImpl.SortByAccess | internal/api/storage_l2.go:279-287 | lists every entry once, oldest access first |
| L2Storage.L2StorageImpl.EvictLru | internal/api/storage_l2.go:278-306 | evicts along some listing by access time, as the machine does |
| L2Storage.L2StorageImpl.SetEntry | internal/api/storage_l2.go:97-146 | as the machine does, including a store whose files cannot be written after the eviction |
| L2Storage.L2StorageImpl.DeleteEntry | internal/api/storage_l2.go:149-166 | removes a present entry and its size; reports an absent one |
| L2Storage.L2StorageImpl.CleanupExpired | internal/api/storage_l2.go:182-203 | removes exactly the expired entries and lowers the counter by their sizes |
| UploadPlan.ChunksOfPositive | internal/api/chunked_upload_handler.go:119-129 | for a positive chunk size the count is the ceiling, all chunks but the last are full and the last holds the rest |
| UploadPlan.ChunkSizeExact | internal/api/chunked_upload_handler.go:119-126 | no request gets 32 MiB, any up to 128 MiB comes back unchanged, more is cut to 128 MiB |
| UploadPlan.NegativeChunks | internal/api/chunked_upload_handler.go:119-129 | what a negative chunk size announces: one chunk for one byte, none, or a negative number, each with its exact condition |
| UploadPlan.NoChunksIff | internal/api/chunked_upload_handler.go:119-129 | a session announces no chunks if and only if c < 0, T > 1 and T - 1 < -2c |
| UploadPlan.LimitsSumToTotal | internal/api/chunked_upload_handler.go:203-235 | the limits of all chunks sum to the announced size if and only if the chunk size is positive (or below -1 for one byte) |
| UploadPlan.PieceFillsLimit | internal/api/chunked_upload_handler.go:216-235 | each piece of a payload cut at the chunk size exactly fills its chunk's limit |
| UploadPlan.AllPiecesJoin | internal/api/chunked_upload_handler.go:322-350 | joining the pieces in order gives the payload back |
| ChunkedUpload.AllIndices | internal/api/chunked_upload_handler.go:305-313 | pigeonhole: as many distinct valid chunk numbers as chunks means every chunk is there |
| ChunkedUpload.StepKeeps | internal/api/chunked_upload_handler.go:166-407 | every atomic step of any handler keeps the invariant |
| ChunkedUpload.RunKeeps | internal/api/chunked_upload_handler.go:166-407 | so does every interleaving of uploads, expiries and completions |
| ChunkedUpload.StoredArtifactIsComplete | internal/api/chunked_upload_handler.go:305-367 | a stored artifact is the in-order concatenation of one accepted body per chunk, no longer than announced, one per session |
| ChunkedUpload.AcceptedIff | internal/api/chunked_upload_handler.go:185-235 | a chunk is taken up exactly for a listed session of the same tenant, a chunk of its plan and a body within its limit |
| ChunkedUpload.TakenIff | internal/api/chunked_upload_handler.go:285-303 | a completion proceeds exactly for a listed session of the same tenant |
| ChunkedUpload.OnlyOwnUploads | internal/api/chunked_upload_handler.go:209-214 | over every run each body accepted for a session was uploaded by that session's tenant |
| ChunkedUpload.PieceIsAcceptable | internal/api/chunked_upload_handler.go:203-235 | every piece of a payload of the announced size is accepted |
| ChunkedUpload.AcceptedChunkIsMarked | internal/api/chunked_upload_handler.go:237-263 | an accepted chunk its handler stores and marks is marked, whatever others do in between |
| ChunkedUpload.MarkedStays | internal/api/chunked_upload_handler.go:258-263 | marks and the session's plan stay over every run |
| ChunkedUpload.AllMarkedIff | internal/api/chunked_upload_handler.go:305-313 | the completion's count check passes if and only if every chunk is marked |
| ChunkedUpload.UploadedIsMarked | internal/api/chunked_upload_handler.go:166-263 | a chunk uploaded anywhere in a run is marked at its end |
| ChunkedUpload.CompletionDelivers | internal/api/chunked_upload_handler.go:305-397 | with every chunk marked at the check, a completion that meets no failure stores and records the session's artifact, interleaved with anything |
| ChunkedUpload.StoredIsPayload | internal/api/chunked_upload_handler.go:322-367 | what is stored for a session to which only pieces of a payload were uploaded is that payload |
| ChunkedUpload.PayloadReassembled | internal/api/chunked_upload_handler.go:166-397 | over one run: the pieces of a payload uploaded in any order, with repeats and interleaved with anything, then a completion: exactly that payload is stored and recorded |
| ChunkedUpload.EmptyCompletionIff | internal/api/chunked_upload_handler.go:119-129 | a fresh session completes at once to an empty artifact if and only if c < 0, T > 1 and T - 1 < -2c |
| ChunkedUpload.NeverCompleted | internal/api/chunked_upload_handler.go:119-129 | with a negative number of chunks, or one byte in a chunk of size -1, no run ever stores an artifact |
| ChunkedUpload.OnlyOneCompletionWins | internal/api/chunked_upload_handler.go:285-296 | after one completion took the session no later one proceeds, whatever happens in between |
| ChunkedUpload.FetchFindsItsChunk | internal/api/chunked_upload_handler.go:322-333 | in every reachable state the chunk about to be fetched is in the store and was accepted for that index |
| ChunkedUpload.UploadServer.HandleInitiate | internal/api/chunked_upload_handler.go:85-164 | rejects non-positive sizes; otherwise the session's limits sum to the size whenever the requested chunk size is not negative |
| ChunkedUpload.UploadServer.HandleUploadChunk | internal/api/chunked_upload_handler.go:168-278 | which of the seven answers is given, exactly; success stores the chunk then marks it, every other answer leaves sessions and blobs unchanged, expiry only unlists the session |
| ChunkedUpload.UploadServer.HandleComplete | internal/api/chunked_upload_handler.go:282-407 | always ends the session; stores the stored chunks in order and records the artifact exactly when all are there and nothing fails; a failed record takes the artifact back unless that fails too; after success only the chunks whose deletion fails are left |
| ChunkedUpload.UploadServer.AssembleParts | internal/api/chunked_upload_handler.go:317-347 | the assembly loop appends each chunk in order and deletes it, up to the first download that fails |
| ChunkedUpload.UploadServer.StoreAssembled | internal/api/chunked_upload_handler.go:349-397 | stores the result, then writes its record or deletes it again |
| MultiTier.DataPathInjective | internal/cache/multi_tier_manager.go:308-314 | different keys have different files, keys with slashes included, as long as no segment is empty, "." or ".." and no key starts with ".." |
| MultiTier.MetaClash | internal/cache/multi_tier_manager.go:298-314 | one key's metadata file is another's data file exactly if the second key is the first plus ".meta" and the first has its own bucket |
| MultiTier.ProperKeysSeparate | internal/cache/multi_tier_manager.go:308-314 | proper keys share no file if and only if none is another's metadata name |
| MultiTier.RunKeepsSound | internal/cache/multi_tier_manager.go:109-314 | every run keeps all tiers and promotions genuine and Redis below 10 MB per artifact |
| MultiTier.HitsAreGenuine | internal/cache/multi_tier_manager.go:109-306 | every byte of a hit stood at its place in something passed to Set for that key, or is a zero; the hit is the front part of one store unless two writes of the file overlapped; and exactly what was stored if moreover no lookup fell into a write and none was cut short |
| MultiTier.OverlappingLookupIff | internal/cache/multi_tier_manager.go:248-306 | during the only write of a file a disk lookup returns what is there: all of it if and only if all was written |
| MultiTier.GenuineIffSeparate | internal/cache/multi_tier_manager.go:109-187 | that holds in every run over a set of keys if and only if no two of them share a file |
| MultiTier.FreshIffSettled | internal/cache/multi_tier_manager.go:109-138 | in any state, all later hits return given bytes if and only if every tier that has the key and every promotion under way agree on them |
| MultiTier.DiskHalfIsFreshIff | internal/cache/multi_tier_manager.go:284-306 | from the start of a store's disk half, whatever happened since its Redis half: exactly when all later hits return its bytes |
| MultiTier.StoreIsFreshIff | internal/cache/multi_tier_manager.go:141-187 | the same for a whole uninterrupted store of any size and outcome, failed and cut-short writes included |
| MultiTier.CrossedStoresDisagree | internal/cache/multi_tier_manager.go:152-161 | two stores of one key whose halves cross leave neither fresh |
| MultiTier.GoneIffNoPromotion | internal/cache/multi_tier_manager.go:350-369 | over every outcome of an invalidation: the key stays gone until stored again if and only if no promotion of it was under way and no tier kept it |
| MultiTier.RemovalsExact | internal/cache/multi_tier_manager.go:350-369 | what expiry and invalidation remove, each file unless its removal fails, and nothing else |
| MultiTier.StoredTypeIsServed | internal/cache/multi_tier_manager.go:248-306 | after a whole store a disk hit has the stored bytes and content type |
| MultiTier.OldTypeIsServed | internal/cache/multi_tier_manager.go:248-306 | with failed metadata the previous store's content type is served with the new bytes, if any is left |
| MultiTier.DiskHitIsPromoted | internal/cache/multi_tier_manager.go:109-124 | exactly a disk hit below 10 MB starts a promotion, which puts what was found into Redis |
| MultiTier.MultiTierCacheManager.GetArtifact | internal/cache/multi_tier_manager.go:109-138 | Redis, then disk; a disk hit on a small artifact starts a promotion |
| MultiTier.MultiTierCacheManager.ReadDisk | internal/cache/multi_tier_manager.go:248-282 | the file's bytes, with a generic content type when metadata is missing or empty |
| MultiTier.MultiTierCacheManager.SetArtifact | internal/cache/multi_tier_manager.go:141-187 | small artifacts go to both tiers and never report an error; others report a failed disk write |
| MultiTier.MultiTierCacheManager.WriteDisk | internal/cache/multi_tier_manager.go:284-306 | data first, metadata only after it, metadata failures ignored |
| MultiTier.MultiTierCacheManager.PromoteToL1 | internal/cache/multi_tier_manager.go:211-217 | a promotion writes the bytes it was started with, whenever it runs |
| MultiTier.MultiTierCacheManager.InvalidateKey | internal/cache/multi_tier_manager.go:350-369 | removes what can be removed from every tier and no promotion |
| WebSocketHub.StepKeeps | internal/api/websocket_handler.go:52-188 | every step of the hub, a writer or a reader keeps the invariant |
| WebSocketHub.RunKeeps | internal/api/websocket_handler.go:52-188 | so does every interleaving |
| WebSocketHub.HubGuarantees | internal/api/websocket_handler.go:52-188 | the hub closes no channel twice and never sends after close, no channel exceeds capacity; the broadcasts flushed, the at most one batch lost, the batch being collected and the queue are one gap-free slice of the log from the client's registration |
| WebSocketHub.CrashesIffPongMeetsEviction | internal/api/websocket_handler.go:133-142 | a step sends on a closed channel, or closes one under a blocked send, if and only if it answers a ping of a client the hub has forgotten or evicts a client whose reader is blocked |
| WebSocketHub.DrainNeverBlocks | internal/api/websocket_handler.go:170-175 | the writer's inner receive always finds a message |
| WebSocketHub.BatchIsDelivered | internal/api/websocket_handler.go:156-179 | a writer that takes, measures, drains and flushes without failure has written exactly what was queued |
| WebSocketHub.NothingLostWithoutFailure | internal/api/websocket_handler.go:147-188 | over every run without writer failures nothing is lost and a writer ends only on a closed, drained channel |
| WebSocketHub.FailureStopsWriter | internal/api/websocket_handler.go:164-186 | after a failed open, flush or ping nothing is written any more, whatever follows |
| WebSocketHub.RegisterAdds | internal/api/websocket_handler.go:55-59 | a registered client has a new open channel and nobody else is affected |
| WebSocketHub.UnregisterForgets | internal/api/websocket_handler.go:61-68 | an unregistered client is forgotten and closed and nobody else is affected |
| WebSocketHub.VisitOutcome | internal/api/websocket_handler.go:73-78 | a client with room gets the message and stays, one without is closed and forgotten |
| WebSocketHub.PongOutcome | internal/api/websocket_handler.go:133-142 | a ping is answered behind what is queued, once there is room |
| WebSocketHub.LagIsBounded | internal/api/websocket_handler.go:73-78 | no more broadcasts than its channel holds lie past what a registered client's writer has taken |
| WebSocketHub.StoppedClientIsEvicted | internal/api/websocket_handler.go:73-78 | once more broadcasts than that have been made past what a stopped writer took, its client is forgotten and closed |
| WebSocketHub.Hub.RegisterClient | internal/api/websocket_handler.go:55-59 | adds a client with an empty open channel |
| WebSocketHub.Hub.UnregisterClient | internal/api/websocket_handler.go:61-68 | the reader ends; a registered client is closed and forgotten |
| WebSocketHub.Hub.VisitClient | internal/api/websocket_handler.go:73-78 | non-blocking send, or close and forget |
| WebSocketHub.Hub.WritePump | internal/api/websocket_handler.go:147-188 | one step of a writer: take, measure, drain, flush or fail, as in the machine |
| WebSocketHub.Hub.AnswerPing | internal/api/websocket_handler.go:133-142 | a reader's send that goes through, blocks, or meets a closed channel |
| WebSocketHub.Hub.ClientStep | internal/api/websocket_handler.go:109-188 | one step of a writer or reader, as in the machine |
| WebSocketHub.Hub.BroadcastMessage | internal/api/websocket_handler.go:70-80 | with writers running between visits, afterwards every client still registered has been enqueued the message |
| RefreshTokens.StepKeeps | internal/auth/refresh_token_service.go:30-246 | each atomic operation keeps parents present, revoked and inherited from, one child per token, unique hashes |
| RefreshTokens.RunKeepsIff | internal/auth/refresh_token_service.go:90-153 | over every run, interleaved rotations included, the table stays in order throughout if and only if every commit finds its token childless |
| RefreshTokens.AtomicIsChildless | internal/auth/refresh_token_service.go:30-246 | every run of atomic operations is such a run |
| RefreshTokens.ChainIsLinear | internal/auth/refresh_token_service.go:124-133 | of two tokens in one rotation chain, one was rotated into the other |
| RefreshTokens.OneLiveTokenPerChain | internal/auth/refresh_token_service.go:90-153 | in every state such a run reaches, a chain has at most one unrevoked token, a token at most one child, and children inherit user, session and client |
| RefreshTokens.DeadForever | internal/auth/refresh_token_service.go:63-87 | a rotated or revoked token never validates again, in any run with new hashes, interleaved rotations included |
| RefreshTokens.RotationAndRevocationKill | internal/auth/refresh_token_service.go:90-223 | a successful rotation, and revoking the token, its user or its session, makes the token dead; the successor validates |
| RefreshTokens.TokenLivesUntilExpiry | internal/auth/refresh_token_service.go:63-87 | a stored token that is not rotated, revoked or cleaned up has a live row exactly until it expires, whatever else happens |
| RefreshTokens.ExpiredForever | internal/auth/refresh_token_service.go:71 | no run gives a token a live row at or after its expiry |
| RefreshTokens.RotationNeedsLiveToken | internal/auth/refresh_token_service.go:98-104 | a rotation that does anything presents an unrevoked, unexpired token |
| RefreshTokens.StoreExact | internal/auth/refresh_token_service.go:30-60 | storing adds one live row and touches no other |
| RefreshTokens.RotateExact | internal/auth/refresh_token_service.go:106-133 | a rotation revokes the token, adds its child and touches nothing else |
| RefreshTokens.RevokeExact | internal/auth/refresh_token_service.go:156-223 | each revocation touches exactly the rows of the token, user or session |
| RefreshTokens.RevokeSessionStays | internal/auth/refresh_token_service.go:203-223 | after a session is revoked none of its tokens validates until one is stored for it, in every run of atomic operations |
| RefreshTokens.RevokedSessionStaysIff | internal/auth/refresh_token_service.go:90-223 | over every run, interleaved rotations included: it stays revoked throughout if and only if no commit goes through for one of its tokens |
| RefreshTokens.CommitExactly | internal/auth/refresh_token_service.go:98-148 | the second half of a rotation forks the chain exactly if the token was rotated meanwhile, and revives a revoked session exactly if it is the token's |
| RefreshTokens.ConcurrentRotationForks | internal/auth/refresh_token_service.go:90-153 | two requests that validate one token before either commits both get a valid successor |
| RefreshTokens.CleanupTakesWholeChains | internal/auth/refresh_token_service.go:226-246 | with tokens that outlive their parents, clean-up deletes exactly the chains whose first token is stale, or nothing if one of them is not stale altogether |
| RefreshTokens.RefreshTokenService.StoreRefreshToken | internal/auth/refresh_token_service.go:30-60 | inserts exactly if the hash is not taken |
| RefreshTokens.RefreshTokenService.ValidateRefreshToken | internal/auth/refresh_token_service.go:63-87 | finds a row exactly if one carries the hash, is not revoked and not expired |
| RefreshTokens.RefreshTokenService.RotateRefreshToken | internal/auth/refresh_token_service.go:90-153 | as one step: refuses invalid tokens, rolls back on a taken hash, else revokes and adds the child |
| RefreshTokens.RefreshTokenService.RevokeRefreshToken | internal/auth/refresh_token_service.go:156-179 | revokes by hash and reports whether a live row was there |
| RefreshTokens.RefreshTokenService.RevokeAllUserTokens | internal/auth/refresh_token_service.go:182-201 | revokes the user's tokens and no others |
| RefreshTokens.RefreshTokenService.RevokeSessionTokens | internal/auth/refresh_token_service.go:204-223 | revokes the session's tokens and no others |
| RefreshTokens.RefreshTokenService.CleanupExpiredTokens | migrations/010_oauth2_m2m_support.sql:54-65 | deletes tokens a week past expiry unless the parent reference forbids it |
| Totp.TruncateMeetsRfc4226 | internal/auth/mfa_service.go:453-458 | for every 20-octet hash the truncation stays in bounds and is the one of RFC 4226 section 5.3, below 10^6 |
| Totp.SixDigitsReadBack | internal/auth/mfa_service.go:457-458 | a code has six digits that read back as its number |
| Totp.ValidateIsThreeSteps | internal/auth/mfa_service.go:462-479 | with a clock reading per window, acceptance means exactly the code of one of three steps: adjacent ones if the readings fall into one step |
| Totp.SkewTolerated | internal/auth/mfa_service.go:462-479 | a code generated within thirty seconds of the check is accepted if no step begins during the check; otherwise, nearby codes being distinct, exactly if it is the code of the step the check began in, or of the one before and the second reading still fell into that step |
| Totp.StraddlingCheckRefuses | internal/auth/mfa_service.go:462-479 | with a given hasher every check in which a step begins refuses that step's code |
| Totp.MfaService.VerifyTotp | internal/auth/mfa_service.go:133-207 | verdict and table after an undisturbed call, for every error path: only an accepted code changes the table |
| Totp.CurrentCodeOncePerStep | internal/auth/mfa_service.go:141-191 | over every run in which calls do not overlap: during a time step a user's code of that step is accepted at most once |
| Totp.SpentUses | internal/auth/mfa_service.go:141-191 | over every run: after its first use a code is accepted at most once more per rival, a request past its checks with the code or past reading a row that does not show the use |
| Totp.UsedAgainIffRival | internal/auth/mfa_service.go:141-191 | that bound is attained, so a second use is possible if and only if there is a rival |
| Totp.OverlappingCallsAcceptTwice | internal/auth/mfa_service.go:141-191 | two calls that both read before either updates are both accepted with one current code, the second even though it checks after the first is committed |
| Totp.AcceptedAgainIff | internal/auth/mfa_service.go:167-175 | exactly when a code that was just accepted passes the checks again |
| Totp.PreviousCodeReplays | internal/auth/mfa_service.go:167-175 | the previous step's code is accepted twice within one step |
| Totp.VerdictExact | internal/auth/mfa_service.go:159-175 | when the checks accept, find the code invalid, or call it used |
| Totp.UndecodableSecret | internal/auth/mfa_service.go:434-439 | a secret that does not decode accepts exactly the empty code |
| Failover.PatienceIsLeast | internal/failover/database_failover.go:218-219 | floor(threshold / 10 s) + 1 is the least number of failures that exceeds the threshold |
| Failover.Monitor.MonitorFailover | internal/failover/database_failover.go:195-236 | attempts are made at exactly the ticks that complete a multiple of m down readings since the last reset |
| Failover.AttemptsPerBlock | internal/failover/database_failover.go:213-228 | a maximal block with L down readings brings exactly floor(L / m) attempts |
| Failover.AttemptsInStretch | internal/failover/database_failover.go:213-228 | in a stretch of primary-down, standby-up readings, errors aside, every floor(threshold / 10 s) + 1 of them bring one attempt |
| Failover.AttemptsBounded | internal/failover/database_failover.go:213-228 | m times the attempts never exceeds the down readings, hence the ticks |
| Retry.TriesStopAtFirstFinal | internal/api/proxy_request_router.go:329-350 | tries go up to the first success or permanent error and no further |
| Retry.TotalBackoff | internal/api/proxy_request_router.go:327-337 | the total wait before try k is retryDelay * (2^k - 1) |
| Retry.FirstFallbackIsFirst | internal/api/proxy_request_router.go:352-357 | the fallback used is the first that can handle the last error, none exactly if none can |
| Retry.FallBack | internal/api/proxy_request_router.go:352-359 | the loop answers with the first fallback that can handle the error, else with the error |
| Retry.ExecuteWithRetry | internal/api/proxy_request_router.go:321-366 | number of tries, waits and result, cancelled or not, also for a negative retry count; only a timeout or a refused connection is tried again |
| NameCodecs.ExtractVersionExact | internal/api/npm_handler.go:632-645 | extraction returns v if and only if the file name is the tarball name of v |
| NameCodecs.UnscopedExact | internal/api/npm_handler.go:622-630 | a scope is cut off and nothing else |
| NameCodecs.SplitChartExact | internal/api/helm_handler.go:660-674 | the last-dash split recovers (name, version) if and only if the version has no dash |
| NameCodecs.SplitChartRejoins | internal/api/helm_handler.go:628-674 | whatever the split recovers, the file name is the chart file name of it |
| Paths.SplitJoinExact | internal/api/maven_handler.go:103-109 | splitting undoes joining exactly if no part contains the separator |
| NameCodecs.DeleteFindsDeploy | internal/api/maven_handler.go:332-340 | after cleaning, deleting a file's coordinates removes the directory it was deployed to if and only if no group segment has a dot |
| NameCodecs.CoordinatesExact | internal/api/maven_handler.go:103-109 | the last three segments are artifact, version and file, the rest is the group |

## Left out

- Two re-wrap jobs on one tenant at the same time share temporary files; one job at a time is modelled.
- The derived KEKs are computed but used for nothing by the code; only whether the old one can be derived matters, and that is modelled.
- Timestamps, error texts, audit events and log lines, except where a decision reads them.
- Concurrent key rotations and concurrent use of the key cache: its mutex makes each call atomic, which is how the methods are modelled.
- AES-GCM, HKDF, HMAC, SHA-256 and MD5 are abstract functions with the laws stated.
- `EncryptStream`, `DecryptStream`, `EncryptMetadata`: no round trip exists to state.
- The L2 cache's files on disk and their reload, which the reader never finds; the returned slice's aliasing is modelled as an event that overwrites an entry's bytes.
- Per-chunk checksums of a chunked upload, which nothing reads back; progress queries.
- Completions of the same artifact name and version in the same second, which share one storage id and overwrite one another; the model keeps one stored artifact per session.
- A blob or database call that fails has no effect; one that is cut short is modelled for the disk cache and for meta.json only.
- MultiTier.HitsAreGenuine: a lookup reads its file at one instant, and metadata files are written in one step.
- The cloud tier, disabled by its constructor, `ListItems` and the flush operations of the multi-tier cache.
- Server-sent events of the WebSocket handler.
- NameCodecs.DeleteFindsDeploy: request paths with `.` or `..` segments, which the router cleans away before the handler runs.
- Totp.ValidateIsThreeSteps: calls that take thirty seconds or more, and times before thirty seconds after the epoch.
- The user-level flag that multi-factor login is on, set after the first verification; its failure is only logged.
- Retry.ExecuteWithRetry: durations do not overflow.
- Backup codes, WebAuthn, OIDC, SCIM, policy and API-key services, HTTP handlers and storage adapters.
