# FacetsNode: verified models of its protocols

A Dafny 4.11 project. It models the parts of FacetsNode whose correctness spans many functions or whole runs, and proves
what the service relies on. `dafny verify dfyconfig.toml` checks everything.

**Canonical JSON** (`Bytes`, `JsonText`, `JsonTree`, `JsonGrammar`, `JsonParsing`, `JsonAgreement`, `JsonFaults`,
`JsonWriting`, `JsonCanonical`, `CanonicalCodec`, `CanonicalParser`). The compute queue's hand-written bounded parser and canonical printer. `JsonGrammar`
is an independent relation, written after sections 2 to 7 of RFC 8259 and restricted to integers, saying which byte ranges spell which tree.
`JsonCanonical` says, again as a relation, which of the legal spellings is the canonical one, and `JsonFaults` what a
well-spelled document is refused for. `JsonParsing` is the parser as a function, `CanonicalParser` the parser and printer as the source has them: a cursor,
a node counter, loops and an output buffer.

**Outer wire** (`OuterWire`, `OuterWireSlice`, `OuterWireStream`). The Backup framing, validated over a slice and over a
bounded hashing reader on a source that fragments its reads at will and may stall or break.

**Backup custody** (`CustodyFiles`, `CustodyLedger`, `CustodySteps`, `CustodyLateAppends`, `CustodyCoordinator`,
`CustodyRecords`, `CustodyRuns`). Staged files,
hard-linked objects, the account's database rows and the coordinator above them. Every file operation and every
coordinator call of a store that is not marked steady may stop between any two of its steps; an interrupted write may leave any bytes up to the chunk's length.
The invariant ties rows, heads and receipts to the bytes on disk, and calls of one account run one at a time, as the
account lease makes them.

**Generation pages** (`GenerationPages`). Reading the chain back in pages pinned to one head.

**Account control** (`ControlRecords`, `ControlLedger`, `ControlHistory`, `ControlEffects`,
`ControlAuthority`). The event-sourced reducer
over signed commands.

**Carriage** (`Carriage`). The resumable transfer driver against a receiver with lost replies.

**Job lifecycle** (`JobLifecycle`, `JobReceipts`, `JobHistory`), **lease history** (`LeaseHistory`), **shared workers**
(`BoxRegistry`, `WorkerAccess`, `WorkerOperations`, `WorkerSweeps`) and **policy activation** (`PolicyActivation`).

Conventions. UUIDs are natural numbers with 0 for the nil UUID; times are integers. SHA-256, signatures, base64,
hexadecimal and Go's `encoding/json` are function-valued parameters about which nothing is assumed; a statement that needs
digests to be collision free says so with an explicit `CollisionFree` or `Injective` hypothesis. Clocks, authorization
verdicts, capacity verdicts and fresh identifiers are parameters.

Four places where the code needs a closer look than its comments:

- A staged file stays writable through its staging name between the link and the removal of that name, so a chunk appended
  behind a complete wire after an interrupted publish reaches the linked object too. No committed generation is ever
  affected, because only uncommitted uploads have a staging name. The upload itself is blocked exactly while bytes follow
  the committed ones (`CustodyRuns.FinalizableExactly`, with `CustodyLateAppends.LateTailBlocks` as the state that gets
  there). As long as the staging name exists, an append that stops right after cutting the tail unblocks it;
  a tail is only ever written while the upload may take another chunk, so the chunk limit does not stand in the way
  (`CustodyLateAppends.TailCanBeCut`). It is lost for good once such a chunk is committed, or once resuming the upload has
  removed the staging name of an object with a tail (`LateChunkDooms`, `ResumeCanDoom`): no later run finalizes it
  (`CustodyRuns.FinalizeDoomed`).
- Both the slice and the stream validator of the wire accept the same bytes only up to the stream's limits: the stream also
  asks that the header's generation fits a signed 64-bit number, which the slice validator does not.
- The in-memory operation store keeps its sweep when a claim then finds no work, while the database rolls it back. The
  sweeps themselves agree (`WorkerOperations.SweepsAgree`), and as long as no call carries an earlier time than a claim
  before it, every answer and every claimed operation is the same with and without the rollback
  (`WorkerSweeps.StoresAnswerAlike`; `EarlierClaimTells` is a run out of order where it is not). The one exception is the
  status of an operation: queued instead of claimed exactly when a sweep that was kept requeued a lapsed claim and the
  operation is not overdue (`WorkerSweeps.StatusTells`, `KeptSweepShows`).
- Two Worker access requests that are open at a time never share a confirmation code, whatever the clock did, if no
  request was created at a later time (`WorkerAccess.OpenCodesDistinct`). A call breaks this exactly when it creates a
  request that is open at the time while an open one has its code (`WorkerAccess.CodesStayDistinct`), and that takes a
  creation at a later time, so a clock set back since (`WorkerAccess.ClashIsLater`). It can happen
  (`WorkerAccess.SharedCodeAfterRollback`).

## Model

| member | source | states |
|---|---|---|
| JsonAgreement.DocumentExact | internal/computequeue/canonical.go:343-573 | a document parses to a tree exactly when the grammar lets it spell that tree and the tree has distinct keys and fits depth, entry and node bounds; the node counter is the size of the tree |
| JsonAgreement.ValueSound | internal/computequeue/canonical.go:356-461 | whatever the parser returns is spelled by exactly the bytes it consumed, within the bounds |
| JsonAgreement.ValueComplete | internal/computequeue/canonical.go:356-461 | every spelled, bounded value followed by a delimiter or the end is parsed, to that value and no further |
| JsonParsing.StringSound | internal/computequeue/canonical.go:463-540 | a parsed string is spelled by its bytes, escapes and surrogate pairs included |
| JsonParsing.StringComplete | internal/computequeue/canonical.go:463-540 | every spelling of a string, with any mix of escapes, parses to it |
| JsonText.EncodedIsDecoded | internal/computequeue/canonical.go:463-528 | UTF-8 decoding undoes the encoding of every scalar value, wherever it stands |
| JsonText.DecodedIsEncoded | internal/computequeue/canonical.go:463-528 | whatever decodes is the encoding of what it decodes to, so no overlong or surrogate form passes |
| JsonWriting.ReadBack | internal/computequeue/canonical.go:256-334 | the written form of a bounded tree, followed by the end or a delimiter, is consumed exactly and read back as the tree sorted by key |
| JsonTree.SortSorted | internal/computequeue/canonical.go:295-301 | sorting distinct keys gives strictly ascending UTF-8 byte order |
| JsonTree.SortedUnique | internal/computequeue/canonical.go:295-301 | there is only one ascending arrangement of the same entries |
| JsonTree.SameIffNormEqual | internal/computequeue/canonical.go:256-301 | two trees with distinct keys have the same sorted form exactly when they are equal up to entry order at every level |
| Bytes.BytesLessExact | internal/computequeue/canonical.go:295-301 | one byte string is below another exactly when they agree up to a place where the first ends or has the smaller byte |
| JsonCanonical.RuneChoice | internal/computequeue/canonical.go:303-334 | a character is written as itself exactly when it is plain, else by its two-byte escape if it has one, else by the six-byte escape in lower case; no other bytes fit |
| JsonCanonical.StringChoice | internal/computequeue/canonical.go:303-334 | so every string has exactly one canonical spelling, the one written |
| JsonCanonical.TreeChoice | internal/computequeue/canonical.go:256-334 | the canonical spelling of a tree with ordered keys, without whitespace, exists once and is the one written |
| JsonCanonical.WrittenIsChosen | internal/computequeue/canonical.go:256-334 | what is written for any tree is exactly the canonical spelling of the ordered tree equal up to entry order |
| JsonFaults.DocumentJudged | internal/computequeue/canonical.go:343-461 | a document that spells a tree is parsed to it or refused with the tree's first fault in document order |
| JsonFaults.FaultBlames | internal/computequeue/canonical.go:356-461 | no fault exactly for well-formed trees within all bounds; a duplicate key, too many nodes or a broken depth or entry bound is only reported where there is one |
| JsonFaults.OneFault | internal/computequeue/canonical.go:343-461 | a spelled document with one kind of fault is refused for that fault |
| CanonicalCodec.CanonicalizeExact | internal/computequeue/canonical.go:238-254 | canonicalisation succeeds exactly on bounded documents spelling a bounded tree with distinct keys whose canonical spelling is bounded, and gives that spelling |
| CanonicalCodec.Idempotent | internal/computequeue/canonical.go:238-254 | canonicalising again changes nothing |
| CanonicalCodec.OneSpelling | internal/computequeue/canonical.go:238-301 | two accepted documents canonicalise alike exactly when their trees are equal up to object-entry order |
| CanonicalCodec.FixedPoints | internal/computequeue/canonical.go:175-201 | the decoder's byte comparison accepts exactly the canonical spellings of bounded trees |
| CanonicalCodec.SpelledIsUtf8 | internal/computequeue/canonical.go:238-243 | every spelled value is valid UTF-8, so the up-front check refuses no spelled document |
| CanonicalParser.Parser.Parse | internal/computequeue/canonical.go:343-354 | the cursor parser accepts exactly the documents of the grammar within bounds, ends inside the data and counts the tree's nodes |
| CanonicalParser.Parser.ParseValue | internal/computequeue/canonical.go:356-393 | value, cursor and node counter of the imperative parser are those of the specification, error for error |
| CanonicalParser.Parser.ParseMembers | internal/computequeue/canonical.go:395-434 | the object loop with its set of seen keys refuses exactly the duplicates and reads the members in order |
| CanonicalParser.Parser.ParseString | internal/computequeue/canonical.go:463-528 | the string loop reads the specified text and stops behind the closing quote |
| CanonicalParser.WriteValue | internal/computequeue/canonical.go:256-293 | the writer appends exactly the written form, sorting each object as it goes |
| CanonicalParser.WriteString | internal/computequeue/canonical.go:303-334 | the string writer appends the canonical spelling of the text, rune by rune |
| CanonicalParser.CanonicalizeDocument | internal/computequeue/canonical.go:238-254 | parser and writer together give the canonical spelling of the tree the document spells, and fail exactly when there is none within the bounds; the error class is the specified one |
| CanonicalParser.AcceptCanonical | internal/computequeue/canonical.go:175-183 | the decoder's gate passes exactly the canonical spellings of bounded trees |
| OuterWire.AcceptsExactlyLegalWires | internal/backupcustody/contracts.go:577-673 | the section walk accepts exactly the encodings of one catalog, recovery chunks 0..n-1 full except possibly the last, one finalization with index n and nothing after |
| OuterWire.NoAcceptedExtension | internal/backupcustody/contracts.go:623-671 | no accepted byte string is a proper prefix of another |
| OuterWireSlice.CheckSlots | internal/backupcustody/contracts.go:604-619 | the slot loop accepts exactly fixed-size, distinct, strictly ascending recipient slots |
| OuterWireSlice.WalkSections | internal/backupcustody/contracts.go:620-673 | the offset loop accepts exactly the section sequences that complete a wire |
| OuterWireSlice.ValidateOuterWire | internal/backupcustody/contracts.go:577-673 | accepts exactly the legal wires and returns their header |
| OuterWireStream.BoundedHashReader.Read | internal/backupcustody/wire_stream.go:158-189 | what passes is counted, hashed and bounded; a clean refusal means the maximum was reached with bytes left |
| OuterWireStream.BoundedHashReader.ReadFull | internal/backupcustody/wire_stream.go:38-53 | fills the buffer with the next bytes of the source, or the source was faulty or too little was left |
| OuterWireStream.DecodeOuterHeader | internal/backupcustody/wire_stream.go:119-149 | accepts exactly the legal headers whose generation fits 63 bits |
| OuterWireStream.ReadSections | internal/backupcustody/wire_stream.go:58-116 | over the stream, accepts exactly the complete section sequences that end within the maximum |
| OuterWireStream.ValidateOuterStream | internal/backupcustody/wire_stream.go:32-117 | however reads are fragmented, accepts exactly the legal wires within the limits, with the slice validator's header, the full length and the digest of exactly the bytes read; only a faulty source makes it refuse more, and a steady one is never faulty |
| CustodyFiles.ContentStore.PrepareUpload | internal/backupcustody/content_store.go:193-227 | creates an empty staged file or leaves everything alone, and refuses only a non-empty one |
| CustodyFiles.ContentStore.EnsureStaging | internal/backupcustody/content_store.go:229-290 | accepts exactly a published object whose staging name is the same file, a staged file of legal size, or nothing with nothing committed |
| CustodyFiles.ContentStore.VerifyUploadRange | internal/backupcustody/content_store.go:292-322 | true exactly when the stored range exists and has the expected digest |
| CustodyFiles.ContentStore.ReconcileAndAppend | internal/backupcustody/content_store.go:327-367 | wherever it stops, bytes below the offset are intact and at most a chunk's length follows them; done means exactly the chunk follows |
| CustodyFiles.ContentStore.OpenFinalizationBytes | internal/backupcustody/content_store.go:379-399 | finds the staged bytes, or the object's once the staging name is gone |
| CustodyFiles.ContentStore.VerifyObject | internal/backupcustody/content_store.go:484-510 | true exactly when the object has the recorded length and digest |
| CustodyFiles.ContentStore.Publish | internal/backupcustody/content_store.go:403-482 | contents never change, each interruption leaves one of three name states, and a publishable upload is never refused |
| CustodyLedger.FileStep | internal/backupcustody/content_store.go:193-482 | a change to one uncommitted upload's files that keeps its bytes sound keeps the whole account sound, committed objects included |
| CustodySteps.CreatedStep | internal/backupcustody/content_store.go:193-227 | creating the staged file keeps the invariant |
| CustodySteps.RewrittenStep | internal/backupcustody/content_store.go:327-367 | whatever an interrupted append leaves keeps the invariant |
| CustodySteps.WithObjectStep | internal/backupcustody/content_store.go:428-434 | linking the object keeps the invariant, also when interrupted right after |
| CustodySteps.RemovedStep | internal/backupcustody/content_store.go:457-468 | removing the staging name of a linked file keeps the invariant and the bytes |
| CustodySteps.ReserveStep | internal/postgres/backup_custody_store.go:768-862 | reserving a fresh upload keeps the invariant |
| CustodySteps.CommitChunkStep | internal/postgres/backup_custody_store.go:891-908 | committing a chunk that is on disk behind the committed bytes keeps rows, offsets and bytes in step |
| CustodySteps.CommitGenerationStep | internal/postgres/backup_custody_store.go:1003-1069 | committing the published record that extends the head keeps the chain, the head and the one-row-per-upload rule |
| CustodyCoordinator.GenerationFromSummary | internal/backupcustody/coordinator.go:678-705 | there is a record exactly when the wire is what the request announces and continues the target's head as the client expected, and the record directly extends the head |
| CustodyRecords.ComputeGenerationRecord | internal/backupcustody/contracts.go:211-268 | computes the one record that bytes, request and predecessor determine, or there is none; for wires the stream accepts it is the coordinator's record against the predecessor as head |
| CustodyCoordinator.StagingAlwaysSound | internal/backupcustody/content_store.go:229-290 | no reachable staged file is rejected when an upload is resumed |
| CustodyCoordinator.Coordinator.ReserveUpload | internal/postgres/backup_custody_store.go:768-862 | a repeated request gets its upload back unchanged, a new one gets a fresh upload without files |
| CustodyCoordinator.Coordinator.BeginUpload | internal/backupcustody/coordinator.go:51-99 | the same request always resumes the same upload with its bytes in place; staging never fails, and without interruption it succeeds exactly for admitted requests that repeat one exactly or can get a fresh upload |
| CustodyCoordinator.StoredRow | internal/postgres/backup_custody_store.go:935-944 | the row at an offset decides whether a chunk was kept there, and its bytes are still on disk |
| CustodyCoordinator.Coordinator.RetryChunk | internal/backupcustody/coordinator.go:145-154 | a chunk below the committed offset is accepted exactly when one of its length and digest is stored there; the disk check never fails |
| CustodyCoordinator.Coordinator.AppendChunk | internal/backupcustody/coordinator.go:155-194 | file first, row second: wherever it stops the invariant holds, and success means the chunk was committed at the old offset |
| CustodyCoordinator.Coordinator.AppendUploadChunk | internal/backupcustody/coordinator.go:101-195 | an exact retry returns the same next offset and changes nothing; committed chunks are never lost; without interruption it succeeds exactly for retries and for chunks that fit at the committed offset |
| CustodyCoordinator.Coordinator.ExamineUpload | internal/backupcustody/coordinator.go:260-272 | an accepted examination covers exactly the committed bytes and yields the next link of the chain; bytes are missing only if nothing was committed |
| CustodyCoordinator.Coordinator.PublishUpload | internal/backupcustody/coordinator.go:286-289 | publishing examined bytes is never refused and, uninterrupted, done; interrupted anywhere, the same record can be published again from the same bytes |
| CustodyCoordinator.Coordinator.FinalizeUpload | internal/backupcustody/coordinator.go:197-322 | the database stays or gains one row for the upload, with the receipt of the given ID, time, request and record, which becomes the head; finalizing again changes nothing; without interruption it succeeds exactly for the receipt's holder if the credential was good at the time or, before that, with current authority and room for a generation, for an uploader whose bytes are a complete accepted wire extending the head |
| CustodyRuns.Serve | internal/backupcustody/coordinator.go:51-322 | any sequence of begins, appends and finalizations, each stopping anywhere, keeps the invariant, only appends generations, forgets no committed chunk and saves no upload that is lost for good; if the receipt IDs handed in are new and distinct, so are those of all committed generations |
| CustodyRuns.FinalizeTwice | internal/backupcustody/coordinator.go:197-250 | whatever runs in between and whoever asks with whatever standing, two successful finalizations return the same receipt; without interruption the holder who got it gets it again exactly if the credential was good when it was issued, admitted or not |
| CustodyRuns.StagedBytes | internal/backupcustody/content_store.go:229-290 | staged bytes begin with exactly the committed chunks, run at most one chunk past them and stay within the limit |
| CustodyRuns.CommittedObject | internal/backupcustody/content_store.go:403-510 | a committed generation has no staging name left and its object is exactly the committed chunks, of recorded length and digest |
| CustodyRuns.GenerationsAreAChain | internal/backupcustody/coordinator.go:678-705 | committed generations of a target are 1..n without gaps, each naming its predecessor's reference, in bytes naming its outer digest |
| CustodyRuns.GenerationCommitsOnce | internal/postgres/backup_custody_store.go:1048-1069 | two uploads of one generation never both commit |
| CustodyRuns.UploadCommitsOnce | internal/postgres/backup_custody_migrations/001_backup_custody.sql:136-157 | no upload has two generations |
| CustodyRuns.FinalizableExactly | internal/backupcustody/coordinator.go:260-268 | once the committed chunks are a complete wire, the bytes on disk are accepted exactly when nothing follows the committed bytes |
| CustodyRuns.FinalizeDoomed | internal/backupcustody/coordinator.go:51-322 | an upload with a chunk committed behind a complete wire, or with an over-long object and no staging name, is not finalized by any later run |
| CustodyRuns.DoomedMayNotFinalize | internal/backupcustody/coordinator.go:260-272 | such an upload does not meet the condition for finalizing, whoever asks |
| CustodyLateAppends.LateTailBlocks | internal/backupcustody/content_store.go:327-367 | from any sound state with a complete upload that may take another chunk, a late append leads to a sound state whose bytes are refused |
| CustodyLateAppends.LateChunkDooms | internal/postgres/backup_custody_store.go:891-908 | committing the late chunk makes the refusal permanent |
| CustodyLateAppends.ResumeCanDoom | internal/backupcustody/content_store.go:246-260 | resuming removes the staging name of a linked object; with a tail on it the refusal is permanent |
| CustodyLateAppends.TailCanBeCut | internal/backupcustody/content_store.go:349-356 | while the upload is not in that state, there is room for an append, in bytes and chunks, and one stopping right after the cut brings exactly the committed bytes back |
| CustodyLateAppends.DoomedIsRejected | internal/backupcustody/coordinator.go:260-268 | the bytes of such an upload are never an accepted wire of the committed length |
| GenerationPages.ValidatePage | internal/backupcustody/contracts.go:361-399 | accepts exactly the unbroken stretches of the head's chain that end in the head if they reach its number |
| GenerationPages.ValidateResponse | internal/backupcustody/contracts.go:406-429 | accepts exactly the pages that answer the request, keep the pinned head and are full unless they reach it |
| GenerationPages.CollectedIsChain | internal/backupcustody/contracts.go:361-429 | what a client has collected is always an unbroken chain from generation one |
| GenerationPages.FinishedIsComplete | internal/backupcustody/contracts.go:361-429 | a finished listing is exactly generations 1..head, all of the account, target and backup set asked for, and ends in the pinned head |
| GenerationPages.UnfinishedPagesAreFull | internal/backupcustody/contracts.go:401-429 | a page that is not full has reached the pinned head |
| GenerationPages.SameHeadSameRecords | internal/backupcustody/contracts.go:361-429 | two readers with the same head reference get the same records |
| ControlRecords.DecodedPayload | internal/backupcustody/credential_authority.go:236-245 | a command decodes exactly when its payload does, is valid and has well-formed signatures, a second one exactly for a rotation |
| ControlRecords.Verify | internal/backupcustody/credential_authority.go:247-269 | a command verifies, to its own payload, exactly when that is for the current key's account, generation and ID, signed by it over the exact bytes and by the successor too for a rotation |
| ControlLedger.RecordSound | internal/backupcustody/credential_authority.go:389-445 | every effect keeps targets injective, credential IDs unique, grants and consents under their own digests on known targets, and supersessions on one target |
| ControlLedger.RecordMoves | internal/backupcustody/credential_authority.go:389-445 | no effect forgets anything; a grant leaves active once and for all, a consent is revoked once and for all |
| ControlLedger.RecordRanked | internal/backupcustody/credential_authority.go:406-425 | ranks that rise along supersessions extend over every effect |
| ControlLedger.ChainEnds | internal/backupcustody/credential_authority.go:406-425 | from every grant a finite chain of replacements, on one target, ends in an active or revoked grant |
| ControlHistory.StepInv | internal/backupcustody/credential_authority.go:361-463 | one step keeps the whole invariant, extends the log and only moves books forward |
| ControlHistory.RunInv | internal/backupcustody/credential_authority.go:361-472 | so does every run with any refused attempts in it |
| ControlHistory.ReachableLog | internal/backupcustody/credential_authority.go:338-463 | record count is head sequence, command IDs and control keys ever current are distinct, generation is one plus rotations, and replay from the pinned anchor reproduces the state |
| ControlHistory.ReachableGrants | internal/backupcustody/credential_authority.go:389-498 | in every reachable state targets are injective, credential IDs unique and supersession chains end |
| ControlHistory.ReachableSigned | internal/backupcustody/credential_authority.go:247-269 | every record of a reachable log was signed by the key in force when it was accepted, and rotations by the successor too |
| ControlHistory.ReplayIsRun | internal/backupcustody/credential_authority.go:465-472 | a log that replays is accepted record by record and ends in the replayed state |
| ControlHistory.TailRepeat | internal/backupcustody/credential_authority.go:365-371 | repeating the tail record changes nothing |
| ControlHistory.OldRepeatRefused | internal/backupcustody/credential_authority.go:361-388 | repeating any older record is refused |
| ControlHistory.SameHeadSameState | internal/backupcustody/credential_authority.go:282-288 | two reachable states with one head reference have the same anchor, the same log and are equal |
| ControlEffects.EffectExact | internal/backupcustody/credential_authority.go:393-445 | each effect is recorded exactly when it is allowed, and then enters, ends or revokes exactly what it names and leaves the rest of the books alone |
| ControlEffects.StepExact | internal/backupcustody/credential_authority.go:361-463 | a command is accepted exactly when it repeats the newest record or is signed by the current key, extends the head, has a new ID, an allowed effect and, for a rotation, a new key; then log, books, key and head change so |
| ControlEffects.BeginExact | internal/backupcustody/credential_authority.go:338-359 | a history starts exactly from a possessed first-generation anchor, with empty books and a head at the anchor |
| ControlEffects.EndedForGood | internal/backupcustody/credential_authority.go:406-426 | after an accepted revocation or supersession no later state of any run has that credential active |
| ControlAuthority.InsertGrantInto | internal/backupcustody/credential_authority.go:483-498 | the scan inserts exactly when digest and credential ID are both new |
| ControlAuthority.InsertConsentInto | internal/backupcustody/object_scope_consent.go:66-79 | the scan inserts exactly when reference, binding, link and intent are all new |
| ControlAuthority.TargetSetExists | internal/backupcustody/credential_authority.go:508-515 | true exactly when some target has the backup set |
| ControlAuthority.CredentialAuthorityState.Open | internal/backupcustody/credential_authority.go:338-359 | starts a history exactly from a verified first-generation anchor |
| ControlAuthority.CredentialAuthorityState.ScanLog | internal/backupcustody/credential_authority.go:377-388 | finds a reused command ID and collects exactly the keys ever current |
| ControlAuthority.CredentialAuthorityState.Apply | internal/backupcustody/credential_authority.go:361-463 | accepting is one step of the reducer; refusing leaves every field as it was |
| ControlAuthority.CredentialAuthorityState.ApplyAll | internal/backupcustody/credential_authority.go:465-472 | stops at the first refusal and keeps what was accepted before it |
| ControlAuthority.CredentialAuthorityState.ActiveGrant | internal/backupcustody/credential_authority.go:474-481 | finds an active grant if there is one; with unique credential IDs it is the only one, whatever the search order |
| Carriage.Source.ReadAt | internal/carriage/transfer.go:89-104 | a read is a stretch of the source at the offset, refused behind the end |
| Carriage.PrefixKept | internal/carriage/transfer.go:106-115 | appending a chunk of the source keeps a prefix of the source a prefix of the source, whatever part was taken |
| Carriage.Driver.Transfer | internal/carriage/transfer.go:147-219 | the receiver always holds a prefix of the source, commits only the whole object, rounds are at most the missing bytes, and an honest receiver is never asked to commit early; the exchanges are in order and determine result, code and offset; it succeeds with any append replies lost as long as nothing else fails |
| Carriage.Driver.Send | internal/carriage/transfer.go:178-211 | a chunk whose reply is lost is followed by a question, and the transfer goes on exactly if the answer covers the chunk and is in range |
| Carriage.Driver.Retry | internal/carriage/transfer.go:145-219 | the same over any number of interrupted and repeated transfers |
| JobLifecycle.DedupeTransitions | internal/computepool/lifecycle_evaluator.go:41-76 | accepts exactly ordered input whose repeats are exact copies, and keeps one of each run |
| JobLifecycle.AllowedBackwards | internal/computepool/lifecycle_evaluator.go:251-277 | the transition table read by target state, and that exactly the ended states have no successor |
| JobLifecycle.CanStillComplete | internal/computepool/lifecycle_evaluator.go:251-277 | every state that has not ended and is not being cancelled has a way to completion |
| JobReceipts.Dedupe | internal/computepool/lifecycle_evaluator.go:176-223 | accepts exactly valid receipts that differ in ID and in key, and files the distinct ones |
| JobHistory.CheckEvidence | internal/computepool/lifecycle_evaluator.go:136-160 | accepts exactly transitions with the evidence and timing their state asks for |
| JobHistory.CheckHistory | internal/computepool/lifecycle_evaluator.go:113-167 | the pass with its carried digest accepts exactly the sound histories |
| JobHistory.EvaluateJobLifecycle | internal/computepool/lifecycle_evaluator.go:23-174 | the evaluation equals the verdict, counts included |
| JobHistory.Numbered | internal/computepool/lifecycle_evaluator.go:119-135 | accepted sequences are 1..n, in order of time |
| JobHistory.SecondIsAdmission | internal/computepool/lifecycle_evaluator.go:136-142 | past authorization comes the admission, with its digest and in its time, unless cancelled or expired |
| JobHistory.CompletedEnding | internal/computepool/lifecycle_evaluator.go:251-277 | a completed history ends leased, executing, staged, delivered, applied, completed, with every lease and execution step before lease expiry and the applied evidence at the end |
| JobHistory.CancelNeverCompletes | internal/computepool/lifecycle_evaluator.go:251-277 | after a cancellation request at most one more step follows and the job never completes |
| JobHistory.AcceptedStart | internal/computepool/lifecycle_evaluator.go:113-142 | whatever the evaluator accepts is, without its repeats, numbered 1..n in time order for one job, authorized first and then admitted, cancelled or expired |
| JobHistory.AcceptedEnd | internal/computepool/lifecycle_evaluator.go:113-174 | an accepted completed job ends in the six final states with leases in time and an applied result; one with any cancellation request is not completed |
| JobHistory.AcceptedEvidence | internal/computepool/lifecycle_evaluator.go:113-167 | every accepted transition is listed, the authority's own, chained by digest to the one before, and has the evidence and timing of its state |
| JobHistory.AcceptedReceipts | internal/computepool/lifecycle_evaluator.go:84-112 | accepted executions are of the job and within lease, admission and authorization; accepted applications are of such an execution; copies are counted apart |
| JobHistory.ReceiptOrderIrrelevant | internal/computepool/lifecycle_evaluator.go:176-223 | permuting execution or application receipts does not change the verdict |
| JobHistory.CopyOnlyCounts | internal/computepool/lifecycle_evaluator.go:41-76 | a copy of a transition next to it changes only the duplicate count |
| JobHistory.CountsAddUp | internal/computepool/lifecycle_evaluator.go:168-223 | accepted and duplicate counts add up, attempts are distinct, and there is at most one application |
| LeaseHistory.ValidatedLeaseHistory | internal/computequeue/assignment_lifecycle.go:499-548 | accepts exactly when the listed renewals in some order lead from the initial to the current lease, and files exactly the leases that order leads through |
| LeaseHistory.SortedDecides | internal/computequeue/assignment_lifecycle.go:516-525 | sorting by revision finds the right order whenever there is one, however the receipts were listed |
| LeaseHistory.SortByRevision | internal/computequeue/assignment_lifecycle.go:516-525 | a sorted arrangement of the same receipts |
| LeaseHistory.FoldRenewals | internal/computequeue/assignment_lifecycle.go:526-547 | the fold succeeds exactly on a chain of renewals, ends in its last lease and files exactly the chain's leases |
| LeaseHistory.FiledLeases | internal/computequeue/assignment_lifecycle.go:468-547 | the filed history has the revisions from initial to current, rising expiries under the maximum, and covers every instant in between |
| LeaseHistory.ChainExact | internal/computequeue/assignment_lifecycle.go:526-547 | the leases a list of renewals leads through are exactly those granted one after the other, with the receipt's revision, expiry and time |
| LeaseHistory.ListedExact | internal/computequeue/assignment_lifecycle.go:510-515 | a receipt is folded as often as the assignment lists it as a renewal |
| LeaseHistory.ChainRises | internal/computequeue/authorization.go:226-243 | revisions are consecutive and expiries rise under the fixed maximum |
| LeaseHistory.NoGap | internal/computequeue/authorization.go:226-243 | no instant between first issue and last expiry is without a lease |
| LeaseHistory.RenewalsAreBounded | internal/computequeue/authorization.go:226-243 | there are at most maximum minus initial expiry renewals |
| LeaseHistory.RenewalExtends | internal/computequeue/assignment_lifecycle.go:72-81 | a further fitting renewal extends an accepted history by one |
| WorkerOperations.SweepsAgree | internal/boxcontrol/shared_worker_operation_postgres.go:143-158 | requeue-then-expire in one pass equals the database's expire-then-requeue |
| WorkerOperations.SweepExact | internal/boxcontrol/shared_worker_operation_postgres.go:143-158 | a sweep expires exactly the overdue operations, requeues exactly the lapsed claims and leaves the rest |
| WorkerOperations.OperationStore.Sweep | internal/boxcontrol/shared_worker_operation_store.go:210-227 | the sweep loop leaves the table as the database's two updates would |
| WorkerOperations.OperationStore.Select | internal/boxcontrol/shared_worker_operation_store.go:228-246 | picks the eligible operation least by request time and ID |
| WorkerOperations.OperationStore.EnqueueOperation | internal/boxcontrol/shared_worker_operation_store.go:162-192 | an exact repeat changes nothing, a reused ID collides, and exactly a valid one under a current grant is queued |
| WorkerOperations.OperationStore.ClaimOperation | internal/boxcontrol/shared_worker_operation_store.go:194-255 | exactly the owner's valid claim sweeps, takes the oldest eligible operation under a current grant until the claim ends, and shows it without the requester's connection |
| WorkerOperations.OperationStore.CompleteOperation | internal/boxcontrol/shared_worker_operation_store.go:257-294 | stores a response exactly under the held claim before both deadlines; a repeat is accepted, another response collides |
| WorkerOperations.OperationStore.OperationStatus | internal/boxcontrol/shared_worker_operation_store.go:305-335 | answers exactly over the requester's live connection, expires exactly an overdue operation and shows a response exactly when answered |
| WorkerOperations.RunKeeps | internal/boxcontrol/postgres_store.go:178-210 | every run keeps the table's CHECK constraints, and answered or expired operations never change again |
| WorkerOperations.ResponseUnderClaim | internal/boxcontrol/shared_worker_operation_store.go:257-294 | a response appears only through a completion holding the current claim before both deadlines, under a current grant of the answering owner |
| WorkerOperations.TakesLeast | internal/boxcontrol/shared_worker_operation_store.go:228-254 | a successful claim takes the least eligible operation of the swept table |
| WorkerSweeps.StoresAnswerAlike | internal/boxcontrol/shared_worker_operation_postgres.go:130-211 | after any calls of which none is earlier than a claim before it, the next call gets the same answer, and a claim the same operation, whether sweeps before fruitless claims are kept or rolled back |
| WorkerSweeps.StatusTells | internal/boxcontrol/shared_worker_operation_store.go:305-335 | the status differs exactly for an operation whose lapsed claim only the kept sweep put back in the queue and which is not overdue |
| WorkerSweeps.KeptSweepShows | internal/boxcontrol/shared_worker_operation_store.go:210-227 | one kept sweep shows in a later status exactly for a claim lapsed by the sweep of an operation not yet overdue: queued instead of claimed |
| WorkerSweeps.KeptSweepIsUnseen | internal/boxcontrol/shared_worker_operation_store.go:210-294 | every outcome, every claimed operation and every later sweep is the same with an earlier sweep kept |
| WorkerSweeps.EarlierClaimTells | internal/boxcontrol/shared_worker_operation_postgres.go:179-181 | a claim at an earlier time can get work that the kept sweep of a later fruitless claim has expired |
| WorkerAccess.AccessStore.CreateRequest | internal/boxcontrol/shared_worker_access_store.go:132-165 | adds an open request for someone else's current worker exactly if it is valid and no open one uses the same code |
| WorkerAccess.AccessStore.RequestStatus | internal/boxcontrol/shared_worker_access_store.go:167-197 | answers exactly over the requester's connection, expires exactly an overdue request and shows the grant exactly when approved or revoked |
| WorkerAccess.AccessStore.ConfirmRequest | internal/boxcontrol/shared_worker_access_store.go:199-252 | the right code approves with the one grant, proper for worker, requester and time; a wrong one is always counted, and rejects exactly if four came before |
| WorkerAccess.AccessStore.RevokeGrant | internal/boxcontrol/shared_worker_access_store.go:254-279 | revokes exactly the owner's unrevoked grant with a larger revision, together with its request, and nothing else |
| WorkerAccess.ConfirmExact | internal/boxcontrol/shared_worker_access_store.go:199-252 | a confirmation is a wrong code, the last wrong code, done or invalid exactly under conditions on the request, the grant and the code |
| WorkerAccess.ConfirmMeans | internal/boxcontrol/shared_worker_access_store.go:226-250 | what each answer changes, and that nothing else does |
| WorkerAccess.GrantsDecide | internal/boxcontrol/shared_worker_access_store.go:132-279 | after any run a request is approved exactly when exactly one grant names it and is unrevoked, revoked exactly when its grant is; pending ones have fewer than five wrong codes |
| WorkerAccess.DecidedStays | internal/boxcontrol/shared_worker_access_store.go:132-279 | over any run a decided request stays as it is, except approved to revoked with a strictly larger grant revision |
| WorkerAccess.FailuresAreMisses | internal/boxcontrol/shared_worker_access_store.go:226-237 | over any run the counter of a request is the number of admitted confirmations with another code than its own while it was open, at most five |
| WorkerAccess.OpenCodesDistinct | internal/boxcontrol/shared_worker_access_store.go:156-162 | after any run, whatever the clock did, no two requests open at a time share a code if none was created at a later time |
| WorkerAccess.CodesStayDistinct | internal/boxcontrol/shared_worker_access_store.go:156-162 | one call keeps the codes of the requests open at a time distinct exactly when it does not create a request, open then, with the code of an open one |
| WorkerAccess.ClashIsLater | internal/boxcontrol/shared_worker_access_store.go:156-162 | such a clash comes only from a creation at a later time than the one looked at |
| WorkerAccess.SharedCodeAfterRollback | internal/boxcontrol/shared_worker_access_store.go:156-162 | with a clock set back two open requests can share one |
| WorkerAccess.RunKeeps | internal/boxcontrol/shared_worker_access_store.go:132-279 | every run keeps requests and grants in step and only moves them forward |
| PolicyActivation.PolicyIsWeakening | internal/computepool/policy_evaluator.go:78-119 | true exactly when some control, flag or rule becomes more permissive |
| PolicyActivation.WithinWithin | internal/computepool/policy_evaluator.go:78-119 | not being more permissive is transitive |
| PolicyActivation.PinParticipants | internal/computepool/policy_evaluator.go:30-46 | accepts exactly non-empty, strictly ascending participants with well-formed keys, and pins each key |
| PolicyActivation.FindMissing | internal/computepool/policy_evaluator.go:55-70 | lists, in order, exactly the participants without an acknowledgement of that digest under their pinned key |
| PolicyActivation.MissingIsMissing | internal/computepool/policy_evaluator.go:55-70 | the list is exactly the participants without an acknowledgement, ascending |
| PolicyActivation.EvaluatePolicyActivation | internal/computepool/policy_evaluator.go:28-76 | accepts exactly sound proposals, signed by the authority and directly succeeding; activates at once exactly if nowhere weaker, else exactly if every participant acknowledged, and otherwise keeps the current policy and names exactly who is missing, in order |
| PolicyActivation.NothingWeakensUnnoticed | internal/computepool/policy_evaluator.go:28-119 | along any chain of activations nothing becomes more permissive than at the start unless some weakening step was acknowledged by every participant active then |
| PolicyActivation.AgreementIsExplicit | internal/computepool/policy_evaluator.go:55-70 | agreement holds a valid acknowledgement of this very policy from each participant under the pinned key |

## Left out

- CustodyFiles.ContentStore.Publish: models names, inodes and contents, not directory creation, permissions, symbolic links or what a power failure does to writes that were not yet synced; a crash keeps every completed step.
- CustodyFiles.ContentStore.ReconcileAndAppend: an append is allowed on a file whose mode was already changed to read-only, which the file system would refuse an unprivileged process.
- CustodyCoordinator.Coordinator.FinalizeUpload: receipt signing, authority resolution, reauthorization, the check of the credential at the receipt's time and the generation quota are verdicts passed in; the receipt is the stored value itself.
- CustodyCoordinator.Coordinator.ReserveUpload: quotas on active uploads, requests and bytes are one verdict passed in.
- CustodyCoordinator.Coordinator.AppendUploadChunk: capacity leases are one verdict passed in, and one account is modelled; other accounts touch other rows and names.
- OuterWireStream.ValidateOuterStream: header decoding is one partial function shared with the slice validator, since Go's JSON decoder is not part of this model.
- JobReceipts.Dedupe: one generic method stands for the two functions of the source that differ only in the key.
- JobHistory.EvaluateJobLifecycle: requires digests to be injective, since the source compares receipts and transitions by digest only.
- WorkerOperations.OperationStore.Select: finds the first of the sorted candidates by a minimum search, and operation IDs are ordered as numbers rather than by their text.
- WorkerOperations.OperationStore.ClaimOperation: the eligibility conditions are the memory store's; the database's query also checks the requester's connection.
- WorkerSweeps.StoresAnswerAlike: compares keeping and rolling back the sweep with everything else as in the memory store; the database also answers a claim by anyone but the owner as one without work.
- PolicyActivation.PinParticipants: the sorted and duplicate checks on UUID strings are one strict comparison.
- The typed re-encoding step of the canonical decoder: it depends on Go's `encoding/json` and on each record type.
- Retention confirmation, range reads, bulk transfer grants and admission of accounts: field checks around the same store.
- Assignment transitions and result evidence beyond the lease history: they rest on receipt types that are not part of this model.
- HTTP handlers, command-line programs, the provisioning journal, discovery profiles, frame encoding and deployment scripts: plumbing with branch-level claims.
- PostgreSQL stores: their statements appear only as the transactions, constraints and sweep order the models use.
