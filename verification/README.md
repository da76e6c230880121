# remerge, modelled and proved in Dafny

remerge builds Gentoo packages on a server for its clients. This project models the parts
of it where a mistake would lose or corrupt data, and proves what they promise:

* **Blob upload** (`ChunkFrame`, `ChunkPolicies`, `UploadSessions`, `UploadProtocol`,
  `UploadSafety`, `UploadFidelity`, `UploadCompletion`, `UploadCounts`,
  `UploadConcurrency`, `StreamedUploads`): the resumable chunk stream between client and
  server, as a system of steps that includes lost connections, damaged frames, server
  crashes in the middle of a write, and other traffic on the same store.
* **The content-addressed stores** (`BlobStores`, `StoreIntegrity`, `TreeStores`),
  **snapshot normalisation** (`Snapshots`, `SnapshotStores`, `SnapshotProofs`,
  `SnapshotTheorems`), the client's **upload before submission** (`SnapshotUploads`) and the
  **cache clean-up** (`Cleanups`, `CleanupTheorems`).
* **Workorders** (`Lifecycles`, `WorkorderServers`, `ClaimSafety`, `ActiveSafety`,
  `CancelExactness`, `Lockouts`, `Restarts`) between two restarts of the server, and their
  **eviction** (`Evictions`).
* **Final-state parity** (`Paths`, `FileSystems`, `ParityCaptures`, `ParityShipments`,
  `ParityRestores`, `ParityEffects`, `ParityPhases`, `ParityTheorems`, `ParityExactness`):
  the worker's capture, the server's ingest and the client's reconciliation over an abstract
  file system.
* **Versions and atoms** (`Versions`, `PmsVersions`, `Atoms`), compared with section 3.3 of
  the Package Manager Specification.
* **Configuration files** (`MakeConf`, `ReposConf`) and the **line buffer** of build output
  (`LineBuffers`).

`dafny verify dfyconfig.toml` checks everything.

Code that changes state is a class whose methods are proved against functions on values;
the theorems are about those functions. SHA-256, zstd and the serialised form of a tree are
parameters with the laws `Lawful`: digests are well formed, decompression inverts
compression. No hash is free of collisions, so where equal bytes follow from equal digests
the statement says which byte strings must not collide (`Apart`, `CollisionFreeOn`,
`NoImpostor`): a finite set of those that occur. `Instances` has a codec, a server, a
configuration and a captured tree that meet these hypotheses together.

Directory order and hash-map order are parameters too (`Walks`, `Ordered`), so the results
hold for every order. Times are integers given by the caller.

## What does not hold

Each of these is a theorem with its exact condition.

* A crash that tears a chunk write leaves more staged bytes than the record says. The
  session is refused from then on, and no retry ever completes it
  (`CompletableExactlyWhenIntact`, `TornForever`).
* An append trusts the session's offset but writes at the end of the file. With two live
  connections for one digest the staged bytes stay a prefix exactly when the stream happens
  to repeat itself there (`FrameFromStaleSession`, `TwoConnectionsDuplicateAChunk`).
* An empty payload cannot be uploaded over the stream (`EmptyPayloadTheorem`), and neither can
  one whose session record on the server is torn or of another upload (`UploadExactly`). A
  snapshot with such a file that the server does not have yet is never submitted, while
  sending it inline would work (`SubmissionPrepared`, `UploadFirstIsInline`).
* An empty inline repository beside a manifest that lists files is accepted without
  checking those files; only then does normalisation leave unbacked references and fail to
  be idempotent (`NormalizedReferencesAreBacked`, `NormalizeTwice`).
* Sending references is the same as sending payloads exactly when the sizes reported by the
  file system are those of the bytes read (`UploadFirstIsInline`).
* Cancelling a workorder that has been claimed can leave live work unregistered or give its
  client two live workorders, unless the server has no workers; cancelling a pending one
  cannot (`CancelTheorem`).
* A registration that comes after everything that would have emptied its slot locks the
  client out until a restart: after its workorder was cancelled and cleared, or built, ended
  and cleared. From an idle boot, and as long as only pending work is cancelled, nothing else
  does (`LockoutTheorem`).
* After a restart with work in flight the queue-depth counter wraps
  (`RestartWrapsQueueDepth`) and live workorders are not registered
  (`BootRegistersOnlyIdleServers`).
* The comment on version comparison promises the rules of the Package Manager
  Specification; without superfluous zeros the code differs from them exactly for shadowed
  versions (`AgreesWithSpecificationExactly`), and among versions that differ only in
  leading zeros exactly when a later component other than zero is spelled differently
  (`LeadingZerosDisagreeExactly`).
* The FEATURES that portage reads contain ccache or distcc when a requested feature carries
  it as one word of several, or when a cpu-flags, USE_EXPAND or extra variable is named
  FEATURES, and not otherwise (`FeaturesAsRead`, `OverrideExactly`).
* A name with a backslash is restored under another path (`KeyReadsBackExactly`). A captured
  directory with a name that restoring a file or link uses for its temporary, or a captured
  link with such a name of a later link, is what keeps a capture from being rebuilt over an
  empty root, and nothing else is (`CaptureRebuiltExactly`).

## Model

| member | source | states |
|---|---|---|
| ChunkFrame.AdlerDetectsOneByte | crates/types/src/api.rs:163-201 | replacing one byte of a payload of any length always changes its Adler-32 (section 2.2 of RFC 1950) |
| ChunkFrame.EncodeWithPayload | crates/types/src/api.rs:173-201 | the buffer-pushing writer produces the specified frame, or the size or checksum error |
| ChunkFrame.DecodeInvertsEncode | crates/types/src/api.rs:173-258 | whatever is encoded decodes to the same header and payload |
| ChunkFrame.EncodeInvertsDecode | crates/types/src/api.rs:203-258 | every frame that decodes is the encoding of what it decodes to |
| ChunkFrame.FromPayloadEncodes | crates/types/src/api.rs:163-201 | a header made for a payload always encodes with it and decodes back |
| ChunkFrame.OneByteChange | crates/types/src/api.rs:203-258 | a one-byte change is rejected by the decoder, or yields the same chunk under another sequence or offset |
| UploadSessions.OneByteChangeRejected | crates/server/src/api.rs:821-882 | a one-byte change to a frame the session would accept is refused by the decoder or the sequence and offset checks |
| ChunkPolicies.ChunkPolicy.constructor | crates/cli/src/client.rs:44-52 | a new policy starts at the maximum chunk size with its minimum and an empty streak |
| ChunkPolicies.ChunkPolicy.Ack | crates/cli/src/client.rs:62-74 | the new state after an acknowledgement is that of the policy function |
| ChunkPolicies.ChunkPolicy.Reconnect | crates/cli/src/client.rs:76-79 | the new state after a reconnect is that of the policy function |
| ChunkPolicies.AlwaysInBounds | crates/cli/src/client.rs:43-91 | after any sequence of acknowledgements and reconnects the chunk size is within 256 KiB and 10 MiB |
| ChunkPolicies.ChunkFits | crates/cli/src/client.rs:58-60 | a chunk never exceeds what remains or the negotiated size, and only the last one may be below the minimum |
| Codecs.Codec.EncodeIfWorthwhile | crates/server/src/blob_store.rs:274-306 | a compressed variant is offered only when it is strictly smaller than the payload |
| BlobStores.StoreKeeps | crates/server/src/blob_store.rs:69-115 | storing under a digest succeeds exactly for bytes of that hash that do not collide in length; a refusal changes nothing; afterwards the store is sound and only this digest changed |
| BlobStores.TouchKeeps | crates/server/src/blob_store.rs:175-190 | touching succeeds exactly for a stored valid digest, keeps the store sound and changes no content |
| BlobStores.DeleteKeeps | crates/server/src/blob_store.rs:236-250 | deleting leaves no blob, variant or metadata of the digest and nothing else changes |
| BlobStores.VariantStoreKeeps | crates/server/src/blob_store.rs:125-168 | storing a variant of a stored blob succeeds and keeps the store sound; an existing variant file stays |
| BlobStores.DownloadServesTheBlob | crates/server/src/api.rs:386-458 | raw or zstd, what a client decodes has the digest and length of the stored blob, is found exactly when the blob is, and is the blob unless the two byte strings collide |
| BlobStores.BlobStore.StoreForDigest | crates/server/src/blob_store.rs:69-115 | the object ends in the state the specification gives, with its result, and stays sound |
| BlobStores.BlobStore.Ensure | crates/server/src/blob_store.rs:308-342 | metadata is created once and refused when its digest or size disagrees |
| BlobStores.BlobStore.StoreVariant | crates/server/src/blob_store.rs:125-168 | the variant file is kept if present and the recorded size replaced |
| BlobStores.BlobStore.MaybeStoreVariant | crates/server/src/blob_store.rs:274-306 | a variant is stored when none is recorded and compression is worthwhile |
| BlobStores.BlobStore.Touch | crates/server/src/blob_store.rs:175-190 | the object ends in the state the specification gives and stays sound |
| BlobStores.BlobStore.Delete | crates/server/src/blob_store.rs:236-250 | the object ends in the state the specification gives and stays sound |
| BlobStores.BlobStore.HasBlob | crates/server/src/blob_store.rs:170-173 | presence of the raw blob, or an error for a malformed digest |
| UploadSessions.FinalizeKeeps | crates/server/src/api.rs:1264-1326 | finalising keeps the store sound and, when it succeeds, leaves the blob stored and the session gone |
| UploadSessions.UploadServer.PrepareSession | crates/server/src/api.rs:1109-1208 | opening or resuming a session: the new disk and the answer are those of the specification, refusals included |
| UploadSessions.UploadServer.AppendChunk | crates/server/src/api.rs:1210-1262 | appending a chunk and rewriting the record gives the specified disk and answer |
| UploadSessions.UploadServer.FinalizeSession | crates/server/src/api.rs:1264-1326 | finalising gives the specified disk and answer |
| UploadSessions.UploadServer.RemoveState | crates/server/src/api.rs:1091-1107 | record and part file of the digest are gone, nothing else changed |
| UploadSessions.UploadServer.OpenUpload | crates/server/src/api.rs:499-792 | the answer to an init message, every refusal included, is that of the specification |
| UploadSessions.UploadHandler.BinaryFrame | crates/server/src/api.rs:805-992 | one binary frame: checks in order, append, acknowledgement and completion as specified |
| UploadSessions.UploadHandler.Finish | crates/server/src/api.rs:930-987 | the completion path after the last byte, success and failure, as specified |
| StoreIntegrity.OperationKeeps | crates/server/src/blob_store.rs:69-168 | every store operation, with arbitrary bytes, keeps the store sound |
| StoreIntegrity.RunKeeps | crates/server/src/api.rs:1264-1326 | every sequence of prepares, appends, finalisations, uploads, touches and deletes keeps the store sound |
| StoreIntegrity.StoreIntegrityTheorem | crates/server/src/blob_store.rs:69-168 | after any run a blob under d hashes to d, its recorded size is its length, and its zstd variant decodes to bytes of that digest and length, hence to the blob unless those two collide |
| StoreIntegrity.OtherDigestUntouched | crates/server/src/blob_store.rs:236-250 | an operation on another digest leaves this digest's session, staged bytes and blob alone |
| UploadSafety.RunKeepsInv | crates/cli/src/client.rs:259-499 | the protocol invariant holds after every interleaving of sends, receipts, drops, reconnects, corruption, crashes and foreign store operations |
| UploadSafety.UploadSafetyTheorem | crates/server/src/api.rs:646-992 | in every run the staged file is a prefix of the stream made of writes in order, none repeated; while served its length is the received count and next offset; a client that sees completion finds a blob of its digest, and its payload unless a blob stored by another way collides with it |
| UploadFidelity.StoredIsThePayload | crates/server/src/api.rs:1264-1326 | in every run over a server that did not have the blob and gets it in no other way, the blob under the digest is byte for byte the payload, whatever the hash function does |
| UploadSafety.CrashSafetyTheorem | crates/server/src/api.rs:1167-1207 | after a crash at any point, partial write and unwritten record included, the next init is refused or resumes at exactly the staged length, and the staged bytes are a prefix |
| UploadCompletion.CompletableExactlyWhenIntact | crates/server/src/api.rs:1167-1207 | in every reachable state the upload can still complete if and only if the record agrees with the staged length or the blob is stored |
| UploadCompletion.TornForever | crates/server/src/api.rs:1167-1207 | after a torn write no sequence of retries ever completes the upload |
| UploadCompletion.TornWriteBlocks | crates/server/src/api.rs:1240-1262 | every fresh upload can reach that state: stop the server after one byte of the first chunk |
| UploadCompletion.CanComplete | crates/cli/src/client.rs:259-499 | from every reachable intact state a run to completion is constructed |
| UploadCounts.ChunkCountTheorem | crates/cli/src/client.rs:359-428 | in every state of every run, across all reconnects and crashes and after completion too, at most ceil(n / 262144) chunks of an n-byte stream have been appended |
| UploadCounts.StepCounts | crates/server/src/api.rs:1240-1262 | every step keeps the number of appended chunks equal to the record, or leaves the blob stored |
| UploadCounts.EmptyPayloadIsRefused | crates/server/src/api.rs:1264-1293 | an init for an empty payload is answered with the missing-part error over every disk that has neither its blob nor its part |
| UploadCounts.EmptyPayloadTheorem | crates/cli/src/client.rs:259-499 | in every run the client of an empty payload is never done, unless the blob is stored by another way |
| UploadConcurrency.FrameFromStaleSession | crates/server/src/api.rs:805-928 | for every disk whose record agrees with a staged prefix and every session of the same parameters: its frame is appended exactly when it fits, and the staged bytes stay a prefix if and only if the frame carries what the stream has at the staged length |
| UploadConcurrency.StaleSessionBreaksPrefix | crates/server/src/api.rs:1210-1262 | over all streams, a frame handled for a session keeps the staged bytes a prefix if and only if the session's offset is the staged length |
| UploadConcurrency.TwoConnectionsDuplicateAChunk | crates/server/src/api.rs:646-928 | two inits before any frame give two live sessions whose first chunks are both appended; the staged bytes stay a prefix if and only if the stream repeats itself there |
| UploadConcurrency.InitsAgree | crates/server/src/api.rs:646-792 | every further init before the first frame opens the same session |
| SnapshotStores.SnapshotStore.StorePayloads | crates/server/src/runtime.rs:587-613 | the payload loop stores and collects entries as specified, stopping at the first refusal |
| SnapshotStores.SnapshotStore.RepoManifestFor | crates/server/src/runtime.rs:581-689 | inline, manifest, references or nothing: stores and manifest entry as specified, errors included |
| SnapshotStores.SnapshotStore.DistfileEntryFor | crates/server/src/runtime.rs:691-730 | the entry for a distfile from payload, manifest or reference, errors included |
| TreeStores.TreeStore.Put | crates/server/src/tree_store.rs:41-73 | a tree is written once under its digest; its record gets the variant it lacks and the time of the call |
| TreeStores.TreeStore.Delete | crates/server/src/tree_store.rs:123-137 | no trace of the tree is left and no other changes |
| TreeStores.StoredTreeIsFound | crates/server/src/tree_store.rs:41-93 | unless a stored tree collides with it, a stored tree is found under its digest with exactly its references, is as young as the call, and no other tree changes |
| SnapshotStores.SnapshotStore.AddRepos | crates/server/src/runtime.rs:548-561 | the repository loop, failures part of the way included |
| SnapshotStores.SnapshotStore.AddDistfiles | crates/server/src/runtime.rs:563-576 | the distfile loop, failures part of the way included |
| SnapshotStores.SnapshotStore.NormalizeConfig | crates/server/src/runtime.rs:114-152 | the whole normalisation changes both stores and answers as specified |
| SnapshotProofs.RepoBuilt | crates/server/src/runtime.rs:581-689 | a repository is accepted exactly when its references and tree digest match and its files are stored; the entries and tree digest it gets |
| SnapshotProofs.ReposBuilt | crates/server/src/runtime.rs:548-561 | every listed repository ends as its configuration determines and every other one is untouched |
| SnapshotProofs.DistfilesBuilt | crates/server/src/runtime.rs:563-576 | every listed distfile ends as its configuration determines and every other one is untouched |
| SnapshotTheorems.NormalizedReferencesAreBacked | crates/server/src/runtime.rs:114-152 | everything a normalised configuration refers to is in the stores if and only if no empty inline payload stands beside a manifest that lists files |
| SnapshotTheorems.NormalizeTwice | crates/server/src/runtime.rs:114-152 | normalising the result again, later and over a grown store, gives the same configuration under the same condition, if and only if |
| SnapshotTheorems.HollowPayloadHidesMissingFile | crates/server/src/runtime.rs:558-561 | such an input, for every store: a reference to a file nobody stored is accepted |
| SnapshotUploads.CollectPayloads | crates/cli/src/args.rs:1224-1268 | the nested loops collect what the specification gives, or its first error |
| SnapshotUploads.CollectPaths | crates/cli/src/args.rs:1234-1250 | one repository's files, stopping at the first missing digest or collision |
| SnapshotUploads.CollectDistfiles | crates/cli/src/args.rs:1253-1265 | the distfiles, stopping at the first missing digest or collision |
| SnapshotUploads.PayloadsExactly | crates/cli/src/args.rs:1224-1286 | payloads are collected if and only if every inlined file has a digest and files of one digest have the same bytes; they are then exactly the inlined bytes by digest |
| SnapshotUploads.AssembledPayloads | crates/cli/src/args.rs:1224-1286 | for a configuration the client assembled, whose contents do not collide, neither error can happen and the payloads are exactly the captured contents by hash |
| SnapshotUploads.MissingAre | crates/server/src/api.rs:326-354 | the missing-blob query answers exactly the digests asked for that are not stored, or refuses a malformed one |
| SnapshotUploads.SendMissing | crates/cli/src/args.rs:1195-1222 | the upload loop changes the server as specified, stopping at the first failure |
| SnapshotUploads.SubmissionPrepared | crates/cli/src/args.rs:1195-1222 | whatever session records and staged bytes the server has, preparing a submission succeeds if and only if the server lets every file through that it does not have, and then every file is stored |
| SnapshotUploads.FreshServerAdmits | crates/cli/src/args.rs:1195-1222 | a server without record and part for what it lacks lets everything through if and only if no empty file is missing there |
| StreamedUploads.UploadExactly | crates/cli/src/args.rs:1288-1330 | for every record and staged bytes: an upload over a connection that holds, with its retries, stores the payload if and only if the record is of this upload and agrees with the staged bytes and these go on to something that decodes to the payload; staged bytes that are too long cost an attempt, an empty payload needs its part file |
| StreamedUploads.PrepareExactly | crates/server/src/api.rs:1109-1208 | a session is opened if and only if its record has the same parameters and agrees with staged bytes that are not too long |
| StreamedUploads.FinalizeExactly | crates/server/src/api.rs:1264-1326 | with everything staged, finalisation succeeds if and only if the staged bytes decode to the payload |
| StreamedUploads.TornIsNotUploaded | crates/server/src/api.rs:1167-1207 | with a record behind the staged bytes no number of attempts stores the payload |
| SnapshotUploads.InlineResult | crates/server/src/runtime.rs:535-579 | on every server, whatever its store holds, the inlined form is accepted and becomes the manifest with the measured sizes |
| SnapshotUploads.UploadFirstIsInline | crates/cli/src/args.rs:1195-1286 | for every server and every assembled configuration: sent inline it is accepted; uploading what is missing first works if and only if the server lets it through; and then both normalise to the same, if and only if the file system's sizes are those of what was read |
| SnapshotUploads.SameExactlyWhenSizesAgree | crates/cli/src/portage.rs:686-768 | the client's manifest equals the measured one if and only if the sizes agree |
| SnapshotTheorems.ResultIs | crates/server/src/runtime.rs:535-579 | an acceptable configuration gives the one manifest it determines |
| StableSorts.SortedAscends | crates/server/src/runtime.rs:353-353 | sorting by key is ascending and a permutation |
| StableSorts.SortIsStable | crates/server/src/runtime.rs:362-362 | entries of equal key keep their order |
| Cleanups.SnapshotCache.Classify | crates/server/src/runtime.rs:289-339 | one pass gives the saturated total and the two tiers |
| Cleanups.SnapshotCache.DeleteEntry | crates/server/src/runtime.rs:854-873 | one entry leaves the right store and the summary counts it |
| Cleanups.SnapshotCache.DrainTier | crates/server/src/runtime.rs:352-369 | a tier is deleted from the front, each deletion beginning above the floor, until the floor or its end |
| Cleanups.SnapshotCache.Cleanup | crates/server/src/runtime.rs:266-389 | the pass deletes exactly the shortest prefix of hard tier then grace tier, oldest first, that reaches the floor, or all of it |
| Cleanups.QueueIsTheTiers | crates/server/src/runtime.rs:298-313 | an entry is considered exactly when it is stored, not in use and not newer than both cutoffs |
| CleanupTheorems.QueueOrder | crates/server/src/runtime.rs:352-369 | hard tier before grace tier, oldest first within each |
| CleanupTheorems.ReclaimedIsClampedSum | crates/server/src/runtime.rs:854-873 | reclaimed_bytes is the deleted sum, saturated at 64 bits |
| CleanupTheorems.DeletedExactly | crates/server/src/runtime.rs:854-873 | deleting a list removes every trace of those digests and leaves the rest as it was |
| CleanupTheorems.CleanupTheorem | crates/server/src/runtime.rs:266-389 | nothing in use or newer than both cutoffs goes; what is left is what was there less what was deleted, in entries and in bytes; the prefix is the shortest against the real total when sizes fit 64 bits |
| CleanupTheorems.SecondPassDeletesNothing | crates/server/src/runtime.rs:266-389 | a pass right after a pass deletes nothing |
| CleanupTheorems.ShortestIsUnique | crates/server/src/runtime.rs:352-369 | how much is deleted is determined |
| Evictions.Tables.ListStale | crates/server/src/state.rs:252-264 | the finished workorders past the retention cutoff, each once |
| Evictions.Tables.OldestTerminal | crates/server/src/state.rs:279-298 | the oldest finished workorders, at most the excess, all of them if fewer |
| Evictions.Tables.Drop | crates/server/src/state.rs:266-274 | the same ids leave all six tables |
| Evictions.Tables.Evict | crates/server/src/state.rs:237-311 | only finished workorders go, none past the cutoff stays, the cap holds or nothing finished is left, none newer than a surviving finished one goes for the cap, and the returned count is the exact decrease |
| Evictions.SecondPassEvictsNothing | crates/server/src/state.rs:237-311 | a second pass with the same cutoff and cap evicts nothing |
| Evictions.EvictionSizeIsDetermined | crates/server/src/state.rs:276-308 | with ties, which finished workorders go may vary but not how many |
| WorkorderServers.WorkorderServer.constructor | crates/server/src/persistence.rs:59-86 | the state after a boot; the clients are guarded from the start if and only if nothing was in flight |
| WorkorderServers.WorkorderServer.CountLive | crates/server/src/api.rs:206-219 | the number of live workorders |
| WorkorderServers.WorkorderServer.Lock | crates/server/src/api.rs:202-204 | the lock is never taken from its holder; the invariants of all runs and, once they hold, those of guarded clients are kept |
| WorkorderServers.WorkorderServer.Admit | crates/server/src/api.rs:205-229 | admitted if and only if the server has room; refused, the lock is free again; both invariants kept |
| WorkorderServers.WorkorderServer.RegisterClient | crates/server/src/registry.rs:97-174 | refused if and only if the client is busy or follows without the same configuration; a guarded client that registers has no live workorder |
| WorkorderServers.WorkorderServer.Open | crates/server/src/state.rs:153-166 | the new workorder has channels before anything of its name exists anywhere; both invariants kept |
| WorkorderServers.WorkorderServer.Insert | crates/server/src/api.rs:244-260 | the workorder is new and pending and, with guarded clients, its client's only live one and within capacity |
| WorkorderServers.WorkorderServer.Activate | crates/server/src/registry.rs:177-182 | with guarded clients the slot was empty and now names the client's only live workorder; no other slot changes |
| WorkorderServers.WorkorderServer.CountSubmission | crates/server/src/api.rs:276-281 | the counter keeps its balance and both invariants are kept |
| WorkorderServers.WorkorderServer.FindOldest | crates/server/src/queue.rs:189-196 | the pending workorder that was created first, if any |
| WorkorderServers.WorkorderServer.Pick | crates/server/src/queue.rs:187-198 | something is picked exactly when something is pending, and none pending is older |
| WorkorderServers.WorkorderServer.Claim | crates/server/src/queue.rs:201-218 | claimed exactly when still pending, and never a second time |
| WorkorderServers.WorkorderServer.CountClaim | crates/server/src/queue.rs:220-220 | the counter keeps its balance and both invariants are kept |
| WorkorderServers.WorkorderServer.Spawn | crates/server/src/queue.rs:234-256 | a task starts if and only if a permit is free, never more than max_workers, and never a second one for a workorder |
| WorkorderServers.WorkorderServer.LookUp | crates/server/src/queue.rs:282-289 | with guarded clients a task always finds its channels |
| WorkorderServers.WorkorderServer.Refuse | crates/server/src/queue.rs:306-316 | a build that cannot start ends its workorder; both invariants kept |
| WorkorderServers.WorkorderServer.StartBuilding | crates/server/src/queue.rs:361-361 | with guarded clients only work that is live and its client's registered one is built |
| WorkorderServers.WorkorderServer.EndBuild | crates/server/src/queue.rs:884-992 | the workorder is no longer live and no other changes in that; both invariants kept |
| WorkorderServers.WorkorderServer.CloseChannels | crates/server/src/queue.rs:97-105 | with guarded clients every live workorder keeps its channels |
| WorkorderServers.WorkorderServer.Release | crates/server/src/queue.rs:106-109 | with guarded clients no slot that names another workorder is emptied |
| WorkorderServers.WorkorderServer.Return | crates/server/src/queue.rs:247-252 | a returning task frees a permit and its workorder is finished for good |
| WorkorderServers.WorkorderServer.CancelWorkorder | crates/server/src/api.rs:1451-1471 | cancelled exactly when live; the clients stay guarded when it was pending |
| WorkorderServers.WorkorderServer.ClearCancelled | crates/server/src/api.rs:1486-1486 | with guarded clients a cancellation never empties another workorder's slot |
| WorkorderServers.WorkorderServer.CountCancelled | crates/server/src/api.rs:1488-1490 | the counter keeps its balance and both invariants are kept |
| WorkorderServers.WorkorderServer.EvictFinished | crates/server/src/state.rs:266-274 | no live workorder and no live channel is lost; both invariants kept |
| ClaimSafety.ClaimTheorem | crates/server/src/queue.rs:184-267 | over all interleavings from every boot: each workorder claimed at most once, at most max_workers tasks, at most one claimed workorder waiting |
| ClaimSafety.QueueDepthTheorem | crates/server/src/api.rs:258-281 | over all interleavings the queue depth is, modulo 2^64, pending less owed increments plus owed decrements less pending at boot |
| ActiveSafety.ActiveTheorem | crates/server/src/api.rs:202-263 | from an idle boot, when only pending workorders are cancelled: every live workorder is its client's registered one (or the submission holding the lock is about to register it), no client has two, capacity is never exceeded |
| ActiveSafety.StepKeepsSafe | crates/server/src/registry.rs:97-190 | every step keeps the invariant behind it |
| CancelExactness.CancelTheorem | crates/server/src/api.rs:1451-1495 | cancelling a live workorder keeps every live workorder registered and one per client in every continuation that cancels no claimed work, if and only if it was still pending or the server has no workers |
| CancelExactness.ClaimedBreaksWhenCancelled | crates/server/src/queue.rs:55-109 | claimed, waiting for a permit, starting, preparing or building, and whoever holds the submission lock: a continuation that breaks registration is constructed |
| CancelExactness.CancelBeforeBuildingRevives | crates/server/src/queue.rs:55-72 | cancelled before its build starts and submitted again, the client ends with two live workorders |
| CancelExactness.JammedStaysOrderly | crates/server/src/queue.rs:234-256 | without workers a cancelled claim never does harm |
| Lockouts.LockoutTheorem | crates/server/src/api.rs:259-261 | in every run from an idle boot that cancels only pending work, some client is locked out at the end if and only if some registration came after everything that would have emptied its slot |
| Lockouts.RegistrationSticksExactly | crates/server/src/registry.rs:177-190 | a registration leaves its client locked out if and only if its workorder is no longer live and neither a cancellation nor a task has yet to empty the slot |
| Lockouts.StepKeepsOwing | crates/server/src/registry.rs:177-190 | every other step keeps every taken slot owed an emptying |
| Lockouts.StuckForever | crates/server/src/registry.rs:109-114 | a locked-out client stays refused in every further run |
| Lockouts.CancelBeforeRegistrationSticks | crates/server/src/api.rs:259-261 | such runs exist: a pending workorder cancelled and cleared between insertion and registration |
| Lockouts.BuildBeforeRegistrationSticks | crates/server/src/queue.rs:97-109 | and so do runs without cancellation: the whole build ends and is cleared away before the registration |
| Restarts.BootRegistersOnlyIdleServers | crates/server/src/persistence.rs:133-160 | after a boot every live workorder is registered if and only if nothing was in flight |
| Restarts.RestartWrapsQueueDepth | crates/server/src/queue.rs:220-220 | the first claim of a workorder pending at boot wraps the counter to 2^64 - 1 |
| LineBuffers.LineBuffer.Extend | crates/server/src/queue.rs:558-586 | extend, cap and drain: the lines and the carry are those of the specification; the carry has no newline and at most 64 KiB |
| LineBuffers.ChunkingIsIrrelevant | crates/server/src/queue.rs:558-586 | for every split that stays within the cap the lines are those of the whole stream |
| LineBuffers.CarryIsBounded | crates/server/src/queue.rs:570-586 | for every split at all the carry is bounded and has no newline |
| LineBuffers.OneLinePerNewline | crates/server/src/queue.rs:582-586 | one line per newline |
| LineBuffers.CapLosesDroppedLines | crates/server/src/queue.rs:575-579 | when the cap bites the lines left are exactly the last ones of the whole buffer, the first of them cut at its front unless a newline ends the dropped bytes; those that end in the dropped bytes are lost |
| Versions.VersionReverse | crates/cli/src/portage.rs:1837-1983 | swapping the arguments reverses the comparison, for all strings |
| Versions.VersionsChain | crates/cli/src/portage.rs:1837-1983 | the comparison is transitive on all strings, overflowing numbers and missing components included |
| PmsVersions.AgreesWithSpecificationExactly | crates/cli/src/portage.rs:1819-1983 | on well-formed versions that fit 64 bits without superfluous zeros, the order of section 3.3 of the Package Manager Specification, if and only if neither version shadows the other |
| PmsVersions.LeadingZerosDisagreeExactly | crates/cli/src/portage.rs:1889-1983 | of two versions that differ only in leading zeros the client always says equal; the specification does if and only if every later component is zero or spelled the same |
| PmsVersions.StrictlyEclipsed | crates/cli/src/portage.rs:1837-1983 | a version with an ending compared at a longer one's number comes out greater where the specification says less |
| Atoms.SplitRoundTrip | crates/cli/src/portage.rs:1757-1765 | any name joined with any version splits back |
| Atoms.SplitIsExact | crates/cli/src/portage.rs:1757-1765 | splitting loses nothing and what it calls a version is one |
| Atoms.OperatorRoundTrip | crates/cli/src/portage.rs:1792-1812 | the operator prefix of an atom is read back |
| Atoms.QueryRoundTrip | crates/cli/src/portage.rs:1277-1330 | a written atom is read as its operator, category, name and version |
| Atoms.IsInstalled | crates/cli/src/portage.rs:1277-1369 | the scan answers whether some installed entry satisfies the atom |
| Atoms.LowerBoundsAreMonotone | crates/cli/src/portage.rs:1277-1369 | if >=v (or >v) is satisfied and u is not greater than v, >=u (or >u) is satisfied |
| Atoms.UpperBoundsAreMonotone | crates/cli/src/portage.rs:1277-1369 | the same for <= and < with u not smaller |
| Atoms.ExactMatchImpliesBounds | crates/cli/src/portage.rs:1277-1369 | an installed exact version satisfies both bounds |
| ReposConf.ParseRepoSectionsFull | crates/worker/src/portage_setup.rs:1182-1232 | the line loop gives the sections of the specification |
| ReposConf.RewriteRepoLocation | crates/worker/src/portage_setup.rs:706-737 | the rewriting loop gives the text of the specification |
| ReposConf.RewriteCommutesWithParse | crates/worker/src/portage_setup.rs:706-737 | parsing the rewritten text gives the original sections with the location moved and names, order and URIs unchanged |
| MakeConf.ParseMakeConfVars | crates/cli/src/portage.rs:1497-1615 | the index loop terminates on every text with the variables of the specification |
| MakeConf.TakeQuoted | crates/cli/src/portage.rs:1556-1586 | a quoted value, its escapes and continuation lines, terminated or not |
| MakeConf.BuildFeatures | crates/worker/src/portage_setup.rs:175-217 | the edited feature list is that of the specification |
| MakeConf.WriteMakeConf | crates/worker/src/portage_setup.rs:118-279 | the appended text is the rendering of the specified lines |
| MakeConf.MakeConfRoundTrip | crates/worker/src/portage_setup.rs:118-279 | reading the written make.conf gives exactly the last-wins fold of its assignments |
| MakeConf.PkgdirIsFixed | crates/worker/src/portage_setup.rs:260-262 | PKGDIR is the mounted volume whatever the client configured |
| MakeConf.FeaturesExactly | crates/worker/src/portage_setup.rs:175-258 | FEATURES is the worker's list if and only if no later client setting assigns it something else |
| MakeConf.WorkerFeaturesContain | crates/worker/src/portage_setup.rs:175-217 | the worker's list has buildpkg, no item ccache or distcc, and the rest of what was asked for |
| MakeConf.WorkerFeatureWords | crates/worker/src/portage_setup.rs:175-217 | the words of the written list are exactly those of the kept features and those the worker adds |
| MakeConf.FeaturesAsRead | crates/worker/src/portage_setup.rs:175-258 | without a later setting of that name, a word is in the FEATURES read if and only if the worker adds it or a requested feature other than ccache and distcc has it among its words; for ccache and distcc the second alone |
| MakeConf.OverrideExactly | crates/worker/src/portage_setup.rs:219-258 | a later setting has that name if and only if the cpu-flags variable, a USE_EXPAND variable or an accepted extra variable is named FEATURES |
| MakeConf.FeatureOfTwoWords | crates/worker/src/portage_setup.rs:209-217 | a feature with ccache as its second word gets through |
| MakeConf.SplitJoined | crates/worker/src/portage_setup.rs:209-217 | splitting a joined list gives the words of all its items, one word or several |
| MakeConf.ExtraCanReplaceFeatures | crates/worker/src/portage_setup.rs:236-258 | the last accepted extra variable named FEATURES replaces it, whatever its value |
| Paths.SanitizePath | crates/cli/src/args.rs:602-618 | the component loop accepts and rebuilds exactly the paths of the specification |
| Paths.KeyReadsBackExactly | crates/worker/src/parity.rs:346-356 | a manifest key reads back as its path if and only if no name has a backslash |
| ParityCaptures.Capture.CaptureTree | crates/worker/src/parity.rs:229-308 | the stack walk records every node below the root exactly once, or reports a wrong kind or a taken key |
| ParityCaptures.Capture.CaptureFile | crates/worker/src/parity.rs:310-344 | one regular file if present, an error if something else is there |
| ParityCaptures.Capture.Record | crates/worker/src/parity.rs:358-422 | a node enters the manifest and its content the blob directory, or its key is taken |
| ParityCaptures.Capture.CaptureRepos | crates/worker/src/parity.rs:169-210 | metadata trees and package indexes of every repository |
| ParityCaptures.Capture.CaptureFinalState | crates/worker/src/parity.rs:30-65 | on success exactly the nodes of the approved set were visited; otherwise something is of the wrong kind or two keys collide |
| ParityCaptures.ApprovedScopes | crates/cli/src/args.rs:509-530 | the client's approved set is exactly what the capture visits |
| ParityShipments.VisitsShip | crates/worker/src/parity.rs:229-422 | when no approved path has a backslash, no key is taken twice and the manifest lists exactly the visited directories, files and links that are not noise, with size, time and content |
| ParityShipments.NoCollision | crates/worker/src/parity.rs:358-410 | when no approved path has a backslash, the duplicate error never happens |
| ParityShipments.IngestDigests | crates/server/src/runtime.rs:422-435 | the ingest loop stores as specified, stopping at missing content or a refusal |
| ParityShipments.IngestKeeps | crates/server/src/runtime.rs:403-446 | ingesting a shipment none of whose contents collides with what is stored succeeds, keeps the store sound and leaves every content in it |
| ParityRestores.Reconciler.Phase | crates/cli/src/args.rs:50-80 | each loop performs its entries in order and collects the issues |
| ParityRestores.Reconciler.Reconcile | crates/cli/src/args.rs:32-103 | directories, links, files, directory times and verification, in that order, as specified |
| ParityEffects.FilePlaced | crates/cli/src/args.rs:269-333 | a file is put in place through its temporary sibling, which is gone afterwards |
| ParityEffects.LinkPlaced | crates/cli/src/args.rs:402-486 | a link is put in place through its temporary siblings, which are gone afterwards |
| ParityEffects.PartsAreNotCaptured | crates/worker/src/parity.rs:229-422 | no captured file or link has a name downloads use, because such names are noise |
| ParityPhases.PhaseRestores | crates/cli/src/args.rs:50-80 | a loop of entries in a workable order over any compatible root has no issues, leaves its nodes as captured, and what it does not use as a temporary name stays |
| ParityTheorems.ReconcileRebuilds | crates/cli/src/args.rs:32-103 | reconciling any root in which what lies on the way can become what was captured has no issues, verifies, leaves every captured node as captured, and all else but temporary names and directory times as it was |
| ParityTheorems.EmptyRootIsCompatible | crates/cli/src/args.rs:234-249 | an empty root is such a root |
| ParityTheorems.ReconcileAgain | crates/cli/src/args.rs:234-580 | reconciling a root that has everything as captured downloads nothing and changes nothing |
| ParityTheorems.ParityTheorem | crates/server/src/runtime.rs:403-446 | capture, ingest and reconcile together: equal kinds, contents, link targets and times, all else but temporary names and directory times untouched, and a second reconcile downloads nothing |
| ParityExactness.EmptyRootRebuiltExactly | crates/cli/src/args.rs:32-103 | over an empty root reconciliation has no issues and rebuilds the capture if and only if no captured directory has a name that restoring a captured file or link uses, and no captured link has such a name of a later link |
| ParityExactness.CaptureRebuiltExactly | crates/worker/src/parity.rs:30-65 | the same condition, exact for the whole way from the worker to an empty root |
| ParityExactness.DirectoryInTheWayIsNotRebuilt | crates/cli/src/args.rs:269-300 | such a capture, for every content: a directory named like the file's download |

## Left out

- Docker, image building, container attach and wait: only their outcomes appear, as the choices a build's steps have.
- HTTP, WebSocket and TLS plumbing, authentication, tracing, metrics text and terminal output: input and output only.
- SHA-256, zstd and JSON themselves: parameters with stated laws.
- A session record that does not parse: reading it is an error in the program and is not modelled; a record is present and readable or absent.
- Races inside one blob-store call and dropped handler futures: each store operation and each section under a lock is one step.
- stage_workorder_runtime and the hard-link, reflink and copy fallbacks: operating-system detail that would only add easy members.
- Lost connections and other clients during the uploads before a submission: `StreamedUploads` takes a connection that holds; the interleavings are in `UploadSafety`.
- An upload whose digest is not the hash of its bytes: `SnapshotUploads` answers it with an error and leaves the server alone, while the program would stage the bytes before it refuses them; the client never assembles one.
- A tree whose record disagrees with its file: a tree file and its record are one entry, so the size check of the tree store cannot fail.
- MAKEOPTS: built from environment variables, a parameter of `WriteMakeConf`.
- Fetched distfiles (capture and reconcile): the same code as the parity files with fewer cases.
- Symbolic links on the way to a captured root or directly under /var/db/repos: the program follows them, in the model they end the capture as a wrong kind; links inside captured trees are modelled.
- A symbolic link where a file was captured: comparing follows the link, and where links lead is not modelled, so such a root is not covered by `Compatible`; a file where a link was captured is.
- Parity sizes reported by the file system are those of the bytes read; a file that changes during capture is not modelled.
- Periodic persistence of workorders and clients: only its effect at a boot is modelled.
- Cleanups.SnapshotCache.Cleanup: entry sizes are unbounded sums of raw and variant size, while the program adds them in 64 bits before saturating the total.
- Cutoffs: hours are converted to seconds without the overflow panic of the date library.
- Evictions.Tables.Evict: results, channels and containers are handles, their contents are not modelled.
- Other package.* writers and readers, profile overlays, patches and the remaining command line: flat text handling with no hard property.
