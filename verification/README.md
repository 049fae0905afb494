# StreamHive: verified model of the lifecycle store, its repair protocol, inventory exchange and transport

StreamHive keeps a replicated key space of versioned lifecycle records. Each node appends records to a
checksummed journal, folds journal prefixes into checkpoints, and repairs its peers by sending batches of
journal records or a whole snapshot. Beside that it advertises its blob inventory in bounded frames and runs
a TCP transport that can be drained.

The model follows the source's own split. Rules on values (the log, the store view, batches, books) are
functions. Objects that the source updates in place (journal, store, applier, watermark and membership book,
version authority, repair session, runtime, memory store, transport) are classes whose methods are proved
against those functions. Loops of the source are loops here. Protocols are state machines over single steps,
and their theorems quantify over all finite runs.

Main results:

- **Repair safety over all runs** (`Protocol.RepairSafety`). With one source, any order, loss and duplication
  of frames, source appends and compactions, refusing watermark books, snapshot installs that stop between
  their renames, and receiver restarts between any two record applies, the receiver's store is always the fold
  of the source's history up to the receiver's journal tail, its watermark never passes that tail, and no
  acknowledgement names more than the persisted watermark. Every call of the session object is a run of this
  machine (`Sessions.BatchCallIsRun`, `Sessions.SnapshotCallIsRun`, `Sessions.SourceCallsAreSteps`).
- **Convergence** (`Convergence.Convergence`). From a state in step, at most the remaining records plus one
  rounds make both stores equal, also for a receiver that stopped inside a batch and for a new peer of a long
  compacted history. In step means that what is still to be sent passes the sender's session, the receiver's
  decoder and both watermark books. `Convergence.SnapshotRoundAdvances` gives the exact condition under which a
  snapshot round advances.
- **Stalls** (`Stalls.StalledForever`, `Stalls.StallReachable`, `Stalls.TailCompactionsNeverStall`). A receiver
  whose journal is past the offered snapshot while its watermark is below it refuses the same frame for ever.
  A run reaches this through a compaction below the source's tail, and no run does when every compaction is at
  the tail.
- **A node over its whole life** (`Lifetimes.Lifetime`, `Startup.OpenRuntime`). Through any mix of mutations,
  compactions, openings and crashes at any directory state inside them, the store is the records made durable,
  merged in order; the directory reopens to exactly that state; and it refuses to open only while a compaction
  is stopped between its renames or after the very first header was torn. The objects pass through exactly
  these directory states (`Journals.Journal.Append`, `Runtime.LifecycleRuntime.Put`, `Delete`, `Compact`).
- **Journal bytes** (`Codec.TornTail`, `Codec.ParseSound`): which records survive a cut at any byte, and what
  holds of any bytes that parse at all.
- **Compaction preserves meaning** (`Logs.CompactionPreservesMeaning`), and the runtime's own compaction is
  never refused as unsafe or base-mismatched (`Runtime.OwnCompaction`, `Runtime.LifecycleRuntime.Compact`).
- **Fence, watermarks, version allocation** over all runs (`Membership.FenceHolds`, an exact condition on the
  steps; `Watermarks.WatermarkSafety`; `Authority.NeverReused`).
- **Inventory tours** (`Tours.ListTourCovers`, `Tours.PagedReset`, `Tours.PagedTourCovers`, `Tours.StuckTour`).
  Over a listing store a sequence of exchanges advertises every key once under any budgets. Over a paging store
  that holds exactly when, at every position visited, the byte budget does not run out right behind whole pages.
- **Exact acceptance** (`Codec.ParseExactly`, `Logs.CompactionAccepted`, `Records.ValidExactly`,
  `Repair.PlanExactly`, `Sessions.BatchTaken`, `Inventory.FitHalves`, `Transport.AdmitExactly` and the other lemmas
  whose names end in `Exactly`, `Refused` or `Effects`). For any input, each operation's success and its refusals are
  characterized from the input itself, apart from the functions the methods are proved against.
- **Drain** (`Transport.Tracking`, `Transport.DrainedForever`, `Transport.DrainCanFinish`) over every
  interleaving of accept, dial, admit, serve, finish and shutdown steps.

Where the code and the documentation disagree, or a promise fails, the model follows the code:

- README.md:106-111 of the source says a saturated inventory exchange resumes from its cursor and that a tiny
  byte budget cannot wedge it. In the paged path (inventory.go:285-303) an exchange whose byte budget runs
  out on the first key of a later page returns the empty cursor (inventory.go:327, 354-360), so the next
  exchange starts over. `Tours.PagedReset` says from the inputs exactly when this happens, and `Tours.StuckTour`
  that every inventory longer than a page has a byte budget under which the rest is never advertised.
- A compaction below the source's tail can leave a receiver that can never be repaired
  (`Stalls.StallReachable`). compact reads the tail at lifecycle_cli.go:375 and compacts at 387 without holding
  the journal, so a put in between is enough.
- A remote snapshot replaces the journal and the store (internal/lifecycle/apply.go:84-112) but not the
  checkpoint the runtime remembers, so later compactions are refused until a restart
  (`Runtime.RememberedBaseAfterInstall`).
- A node whose compaction stopped between its renames goes on accepting mutations, yet none of its directory
  states opens until a later compaction completes (`Runtime.LifecycleRuntime.Put`, `Lifetimes.Lifetime`).
- A member that reports a version below the journal floor on reconnecting leaves the compaction fence broken
  (`Membership.ReconcileFence`).

Library functions (JSON, CRC-32C, SHA-256, printability of identities) are function-valued fields of
`Records.Env`; `Codec.Sound` lists what is assumed of them, and `Watermarks.SoundBook` and
`Membership.SoundMembers` what is assumed of the two small files' codecs. Cancellation, failed writes, payload
lengths and the random epoch are parameters.

## Model

| member | source | states |
|---|---|---|
| Versions.CompareIsRankOrder | internal/lifecycle/model.go:77-85 | Version comparison is the sign of a difference of ranks: a total order with the zero version least |
| Bytes.LessExactly | internal/lifecycle/model.go:322-337 | Keys compare by their first differing byte, a proper prefix first |
| Bytes.BigEndian | internal/lifecycle/journal.go:735-756 | The stored numbers are big-endian: the order of their bytes is the order of the numbers |
| Records.ValidExactly | internal/lifecycle/model.go:110-151 | A record is valid exactly when keys and authority are present, bounded and printable, the version is not zero, a present record has a 32-byte blob key and a deleted one none, and the encoding fits; otherwise the error is that of the first rule broken |
| Records.Store.Apply | internal/lifecycle/model.go:264-297 | The outcome tells a newer, an older, a repeated and a conflicting record apart; the store then holds the version reported under the key, every other key keeps its record, and a refusal changes nothing |
| Records.Store.Snapshot | internal/lifecycle/model.go:322-337 | The listing is the unique list of the view in order of namespace, then logical key |
| Records.Store.ReplaceSnapshot | internal/lifecycle/model.go:357-373 | A valid, duplicate-free list replaces the view by exactly its records; otherwise the store is unchanged |
| Records.SnapshotUnique | internal/lifecycle/model.go:322-337 | Two key-ordered listings of one view are the same list |
| Records.SnapshotRoundTrip | internal/lifecycle/model.go:322-373 | Listing a store and loading the list gives the store back |
| Merging.MergeAllNewest | internal/lifecycle/model.go:264-297 | Applying consistent records leaves, for each key written, its highest version and nothing else |
| Merging.OrderIndependence | internal/lifecycle/model.go:264-297 | Any order and any repetition of the same consistent records give the same store |
| Merging.OrderAccepted | internal/lifecycle/model.go:282-297 | None of them is refused, in whatever order they come |
| Merging.ConflictRefused | internal/lifecycle/model.go:282-297 | A record with the stored version and another body is refused as a conflict |
| Merging.ReplayApplies | internal/lifecycle/journal.go:241-259 | Replaying records of rising version over an older store applies every one of them |
| Merging.ReplayAgain | internal/lifecycle/model.go:282-297 | A record already folded in is accepted again and changes nothing |
| Checkpoints.NormalizeCheckpoint | internal/lifecycle/journal.go:680-687 | The method computes the normal form or the first fault in source order |
| Checkpoints.SortDistinct | internal/lifecycle/model.go:375-402 | Sorting and scanning for duplicates yields the key-ordered list of the same records, or reports a duplicate exactly when there is one |
| Checkpoints.NormalizeMeaning | internal/lifecycle/model.go:375-402 | What normalization accepts, that its result has the same view and watermark, and that a normal form is left alone |
| Checkpoints.NormalizeRefused | internal/lifecycle/model.go:375-402 | Which error a refused checkpoint gives: records without a watermark, the first faulty record, one above the watermark, or a repeated key |
| Checkpoints.SnapshotNormalForm | internal/lifecycle/model.go:322-337 | The snapshot of a store bounded by a version is a normal-form checkpoint at that version |
| Codec.HeaderRoundTrip | internal/lifecycle/journal.go:735-756 | Decoding an encoded header gives the floor back |
| Codec.HeaderExactly | internal/lifecycle/journal.go:735-756 | A header decodes to a floor exactly when magic, format, fields and stored checksum are right; a wrong checksum and a wrong shape are told apart |
| Codec.EnvelopeRoundTrip | internal/lifecycle/journal.go:758-787 | Opening an envelope gives its payload back |
| Codec.EnvelopeExactly | internal/lifecycle/journal.go:758-787 | Bytes open to a payload exactly when they are its envelope within the bound |
| Codec.ChecksumExactly | internal/lifecycle/journal.go:758-787 | Refused bytes give a checksum error exactly when a whole envelope begins them whose stored checksum is not its payload's |
| Codec.ParseJournal | internal/lifecycle/journal.go:689-733 | The offset loop computes the recursive parse, for any bytes |
| Codec.ParseSound | internal/lifecycle/journal.go:689-733 | Any bytes that parse hold valid records in rising order above the floor, and cutting at the reported size gives a file that parses to the same log, untruncated |
| Codec.ParseExactly | internal/lifecycle/journal.go:689-733 | For any bytes: a parse succeeds with a floor, records, size and truncation mark if and only if the file is a header followed by whole envelopes, each payload decoding to its record and followed by its own checksum, and then nothing or the beginning of one more |
| Codec.ParseStopsAt | internal/lifecycle/journal.go:689-733 | Which error stops a parse behind whole entries: an impossible length, a wrong checksum, a payload that is no valid record, or a version that does not rise |
| Codec.DamagedPayload | internal/lifecycle/journal.go:714-716 | A written journal in which one payload is replaced by one of another checksum is refused for its checksum, whatever follows |
| Codec.TornTail | internal/lifecycle/journal.go:689-733 | Any prefix of a written journal that keeps the header parses to its floor and exactly the records whose envelopes lie wholly inside it; the size is on an envelope boundary and the truncated flag says whether the cut was off one |
| Codec.JournalRoundTrip | internal/lifecycle/journal.go:689-733 | Parsing a written journal gives its floor and records back |
| Logs.AppendStorable | internal/lifecycle/journal.go:195-239 | An accepted append keeps the journal within its bounds and moves the tail to the record |
| Logs.ReplayAccepts | internal/lifecycle/journal.go:241-259 | Replaying a journal's records over an older store refuses none of them |
| Logs.CutMeaning | internal/lifecycle/journal.go:461-470 | The folded prefix is exactly the leading records at or below the watermark |
| Logs.CompactionPreservesMeaning | internal/lifecycle/journal.go:417-511 | After any accepted compaction, whatever the order of its base records, checkpoint plus retained tail stand for the store that base and journal stood for, and the last version is unchanged |
| Logs.CompactionOutput | internal/lifecycle/journal.go:444-476 | The written checkpoint is the meaning of the folded prefix and the retained journal is the untouched rest |
| Logs.CompactionAccepted | internal/lifecycle/journal.go:417-511 | A compaction is accepted exactly when its watermark is above the floor and at most the tail, every peer has reached it, the base serves, a record is folded, the checkpoint fits, and the given records are the store of base and folded prefix |
| Logs.CompactionRefused | internal/lifecycle/journal.go:432-443 | No progress, a watermark beyond the tail, a peer behind, and a base that does not serve are refused in that order |
| Logs.BaseExactly | internal/lifecycle/journal.go:558-583 | A base serves exactly when it is absent at floor zero or lists distinct valid records at the floor, in any order |
| Logs.InstallStorable | internal/lifecycle/journal.go:516-556 | An installed snapshot matches the emptied journal, keeps the snapshot's view and never moves the tail back |
| Logs.InstallExactly | internal/lifecycle/journal.go:516-556 | A snapshot is installed exactly when it lists distinct valid records, is not older than the tail and fits its file; an older one is stale |
| Logs.CheckpointBytesExactly | internal/lifecycle/journal.go:660-680 | A checkpoint's file is its envelope, exactly when that is within the bound |
| Logs.CheckpointRoundTrip | internal/lifecycle/journal.go:364-406 | Loading a written normal-form checkpoint gives it back |
| Logs.LoadExactly | internal/lifecycle/journal.go:364-406 | A file loads to a checkpoint exactly when it is, within the bound, the envelope of a list of distinct valid records whose key order that is |
| Logs.OpenLogExactly | internal/lifecycle/journal.go:100-193 | Bytes open to a log exactly when they are within the bound and laid out as a journal of at most so many records |
| Logs.ReopenStored | lifecycle_cli.go:174-202 | A directory whose files are in step opens to exactly the log, checkpoint and store it stands for, or is refused exactly when a referenced blob is missing |
| Journals.AppendCrash | internal/lifecycle/journal.go:228-236 | Every torn append reopens to the old log; only the complete envelope makes the new one |
| Journals.EveryTear | internal/lifecycle/journal.go:228-236 | The directory states of an append are exactly the files that hold some of its bytes, one for each number of them |
| Journals.AppendTraceOpens | internal/lifecycle/journal.go:228-236 | Every directory state of an append, byte by byte, opens to the old log, except the last, which opens to the new one |
| Journals.BuildFile | internal/lifecycle/journal.go:585-656 | The rewritten file is the canonical bytes of the retained log, refused exactly when a record no longer fits the journal bound |
| Journals.ScratchSnapshot | internal/lifecycle/journal.go:455-474 | Replaying records into a scratch store lists the resulting view, or fails when one is refused |
| Journals.Journal.Append | internal/lifecycle/journal.go:195-239 | The append is accepted and refused as specified, memory and file stay equal, and the directory passes through exactly the torn states of the written envelope |
| Journals.Journal.Compact | internal/lifecycle/journal.go:417-511 | Accepts exactly the specified requests, none whose evidence names a peer behind, writes the checkpoint before the journal, passes through exactly the two renamed states (one when stopped between them), and changes nothing on refusal |
| Journals.Journal.CheckCompaction | internal/lifecycle/journal.go:432-484 | All checks before the first write, with the source's order of refusals |
| Journals.Journal.Base | internal/lifecycle/journal.go:558-583 | The base is the given normal-form checkpoint at the floor, the empty one for a zero floor, or a mismatch |
| Journals.Journal.Rewrite | internal/lifecycle/journal.go:585-656 | The journal is replaced in one step by header plus retained records |
| Journals.Journal.InstallSnapshot | internal/lifecycle/journal.go:516-556 | A snapshot not older than the tail is written before the journal is emptied at its watermark, through exactly these two states; a refusal changes nothing |
| Crashes.CompactionCrash | internal/lifecycle/journal.go:485-510 | Between the two renames the directory is refused; after them it opens to the same store and last version |
| Crashes.InstallCrash | internal/lifecycle/journal.go:538-555 | Between the renames the directory is refused, unless the snapshot sits at the floor, when it already opens to the new state; after them it opens to the snapshot |
| Crashes.WindowRefused | lifecycle_cli.go:174-202 | A checkpoint beside a journal with another floor is refused |
| Directory.OpenJournal | internal/lifecycle/journal.go:100-193 | Any journal bytes open to the specified log; the bytes left are the header of a new file or the file without its torn tail, and the states on the way are exactly the listed ones |
| Directory.OpenTraceOpens | internal/lifecycle/journal.go:100-193 | A crash while a journal is opened leaves a file that opens to the same log, except a torn new header, which is refused as corrupt |
| Directory.ReadCheckpoint | internal/lifecycle/journal.go:364-406 | Any checkpoint bytes load to a normalized checkpoint or the specified refusal |
| Directory.VerifyRecords | lifecycle_cli.go:483-503 | Succeeds exactly when every present record's blob verifies |
| Directory.RestoreView | lifecycle_cli.go:185-202 | Replaying the journal over the checkpoint, each blob verified before its record, computes the specified store or the first refusal |
| Directory.RestoreDirectory | lifecycle_cli.go:174-202 | Checkpoint at the floor, blobs and replay are checked in the source's order and give the specified state or the first refusal |
| Directory.OpenDirectory | lifecycle_cli.go:127-202 | Opening any directory is repeatable: it opens again to the same state, also after a crash during the opening |
| Directory.OpeningCrash | lifecycle_cli.go:127-202 | A crash while a directory is being opened leaves one that opens to the same state, unless the header of a new journal was torn |
| Directory.OpenedIsConsistent | lifecycle_cli.go:127-202 | Whatever the bytes, an opened state has store, checkpoint, journal and blobs in agreement |
| Directory.RecoveredIsWritten | internal/lifecycle/journal.go:148-163 | A written journal torn after its header is cut back to bytes that are again a written journal, holding a prefix of its records |
| Directory.ProducedOpens | lifecycle_cli.go:127-202 | A directory the program wrote, torn at any byte, opens only to a state its remaining files stand for exactly |
| Repair.ValidateBatch | internal/lifecycle/repair.go:450-478 | The scan reports the first fault in source order |
| Repair.BatchFaultMeaning | internal/lifecycle/repair.go:450-478 | A batch passes exactly when it is within the count and byte limits, strictly ordered after From, valid, and ends at To |
| Repair.BytesAreSums | internal/lifecycle/repair.go:508-516 | The bytes limited are the sums of the key lengths and of the encoded lengths |
| Repair.BatchRefused | internal/lifecycle/repair.go:450-478 | Which error a refused batch gives: too many records, the order, validity or size at the first faulty record, or a wrong end |
| Repair.RepairBatch | internal/lifecycle/repair.go:340-399 | The method returns the specified selection for any encoder verdicts |
| Repair.SelectRecords | internal/lifecycle/repair.go:366-389 | The growing loop stops at the first size that no longer encodes |
| Repair.SelectedBatch | internal/lifecycle/repair.go:340-399 | A selected batch is every journal record in (From, To] in order and nothing else, is empty only when nothing lies beyond From, is as long as fits, and sets More exactly when records lie beyond To |
| Repair.SelectSucceeds | internal/lifecycle/repair.go:366-399 | A batch is selected exactly when its first record fits alone; the final encoding never fails |
| Repair.SelectedWithinLimits | internal/lifecycle/repair.go:131-151 | A selected batch satisfies every repair limit and the frame limit |
| Repair.DecodeExactly | internal/lifecycle/repair.go:131-170 | A batch is encoded and decoded exactly when its payload is within the frame limit and its content within the others |
| Repair.SnapshotExactly | internal/lifecycle/repair.go:172-209 | The same for a snapshot, whose content travels in key order |
| Repair.EncodeSnapshotFrame | internal/lifecycle/repair.go:172-193 | A snapshot frame is the normalized checkpoint within record, byte and frame limits, or the specified refusal |
| Repair.NormalizeSnapshot | internal/lifecycle/repair.go:480-506 | The accumulating loop computes the normalized snapshot or the limit it breaks |
| Repair.Plan | internal/lifecycle/repair.go:402-448 | A peer at or above the floor gets a batch from its watermark; one below gets the snapshot at the floor or a refusal |
| Repair.PlanExactly | internal/lifecycle/repair.go:402-448 | Below the floor: no snapshot, a snapshot elsewhere, or one that may not travel is refused, otherwise it is the plan; at or above it the plan is a batch, which fails exactly when the first record the peer lacks does not fit a frame alone |
| Repair.DeliveryExactly | internal/lifecycle/repair.go:324-337 | A batch is ready exactly when it starts at the expected watermark and ends beyond it, a duplicate exactly when it ends at or before it, and a mismatch otherwise |
| History.FoldNext | internal/lifecycle/model.go:264-297 | The next record of a history is new to the store at a version and carries it to its own version |
| History.FoldAgain | internal/lifecycle/model.go:264-297 | A record at or below the folded version is accepted and changes nothing |
| History.FoldStretch | internal/lifecycle/session.go:224-246 | Folding the stretch between two versions over the store at the first gives the store at the second |
| Applying.ApplySnapshotInstalls | internal/lifecycle/apply.go:84-112 | An accepted snapshot is in normal form with the sender's view, its blobs verify, and the journal is emptied at its watermark without moving back |
| Applying.ApplyExactly | internal/lifecycle/apply.go:49-82 | A newer record needs its blob, a version above the tail and room, in that order; an older or repeated one is accepted without effect, blob or not |
| Applying.ApplySnapshotExactly | internal/lifecycle/apply.go:84-112 | A snapshot is applied exactly when it can be installed and its blobs are there |
| Applying.Applier.EnsureBlob | internal/lifecycle/apply.go:114-138 | A supplied blob is stored exactly when it hashes to its key; otherwise the stored blob must be present and verify |
| Applying.Applier.Apply | internal/lifecycle/apply.go:49-82 | Blob, then journal, then store: the outcome and new state are as specified, a refusal changes neither journal nor store, and the directory passes through exactly the states of the append |
| Applying.Applier.ApplySnapshot | internal/lifecycle/apply.go:84-112 | The snapshot is installed and published as specified or refused with the specified error, and an interruption between the renames leaves memory as it was |
| Protocol.StepPreserves | internal/lifecycle/session.go:129-266 | Every step of source, network and receiver keeps the system invariant |
| Protocol.SourceEffects | internal/lifecycle/session.go:129-189 | The source's own steps take effect: a mutation extends journal and history, attaching takes the present checkpoint, forgetting empties the receiver's entry |
| Protocol.ReceiverEffects | internal/lifecycle/session.go:191-194 | So do greeting, restarting, changing blobs, and sessions with other peers that leave this pair's entries alone |
| Protocol.InstallEffects | internal/lifecycle/journal.go:516-556 | A snapshot the receiver can take replaces journal, checkpoint and store; stopped between the renames it leaves them, and a directory that opens only if the snapshot sits at the floor |
| Protocol.RepairSafety | internal/lifecycle/session.go:224-266 | In every run the receiver's store is the fold of the source history up to its tail, its watermark never passes that tail, no acknowledgement in flight passes the persisted watermark, the source's entry never passes the receiver's, and both directories stand for their stores |
| Protocol.ReceiverMonotone | internal/lifecycle/session.go:224-266 | The receiver's persisted watermark and journal tail never move back |
| Protocol.BatchIsStretch | internal/lifecycle/repair.go:340-399 | What the source selects from its compacted journal is a stretch of its whole history |
| Protocol.CompactedView | internal/lifecycle/journal.go:444-476 | The checkpoint a compaction writes is the state of the source history at its watermark |
| Convergence.RoundProgress | internal/lifecycle/session.go:129-189 | Every round in step strictly advances the source's watermark for the peer and changes nothing else at the source |
| Convergence.Convergence | internal/lifecycle/session.go:129-189 | After at most the remaining records plus one rounds watermark, receiver tail and history tip are equal and both stores are the fold of the whole history |
| Convergence.FreshInStep | internal/lifecycle/session.go:129-189 | A new source and a new receiver whose limits fit together are in step |
| Convergence.SmallerLimits | internal/lifecycle/repair.go:131-170 | Where the source's limits are within its session's and the receiver's, every batch the source encodes is sent and decoded |
| Convergence.MutateInStep | lifecycle_cli.go:238-306 | A mutation that can be delivered and that the receiver has room for, behind its journal or behind the snapshot due, keeps both sides in step |
| Convergence.CompactInStep | lifecycle_cli.go:371-400 | A compaction keeps both sides in step, if the snapshot then due for a receiver below it passes every limit |
| Convergence.NewPeerInStep | internal/lifecycle/session.go:129-189 | A compacted source and a new peer are in step when the snapshot passes and the peer has room for the records after it, whatever the length of the folded history |
| Convergence.SnapshotRoundAdvances | internal/lifecycle/journal.go:535-537 | A snapshot that passes session, decoder, blobs and books makes a round advance exactly when the receiver's tail is not beyond it; otherwise the round only repeats the frame |
| Stalls.StalledForever | internal/lifecycle/session.go:248-266 | Any number of rounds from a stalled state changes nothing but the frame in flight |
| Stalls.StallReachable | lifecycle_cli.go:371-400 | A run of nine steps with one compaction below the tail ends with the receiver past the floor and both watermarks below it, which is a stall once the snapshot passes its limits |
| Stalls.TailCompactionsNeverStall | lifecycle_cli.go:371-400 | In no run whose compactions are all at the tail is a state stalled |
| Sessions.HandlerIsSteps | internal/lifecycle/session.go:224-246 | The record loop of a batch is that many single apply steps of the protocol |
| Sessions.BatchCallIsRun | internal/lifecycle/session.go:224-246 | A batch call is a run of the protocol: begin, one step per record, finish; the receiver it leaves and the acknowledgement it writes are the run's |
| Sessions.SnapshotCallIsRun | internal/lifecycle/session.go:248-266 | A snapshot call is a run of the protocol: install, finish |
| Sessions.SourceCallsAreSteps | internal/lifecycle/session.go:129-189 | Sending and taking an acknowledgement are single steps of the protocol |
| Sessions.BatchTaken | internal/lifecycle/session.go:224-246 | Only a batch that decodes, starts at the receiver's watermark and ends beyond it changes anything; one that ends before is acknowledged again; any other is a mismatch |
| Sessions.BatchEffect | internal/lifecycle/session.go:224-246 | Every record is applied before the watermark moves, it moves to the end of the batch, and the reply names it; a refused record, an unreached end or a failed write leaves it |
| Sessions.SnapshotTakenExactly | internal/lifecycle/session.go:248-266 | Only a snapshot that decodes and is beyond the watermark changes anything; applied, it replaces journal and store, then moves the watermark to its own |
| Sessions.SentExactly | internal/lifecycle/session.go:129-149 | A frame is sent exactly when there is a plan and its payload fits the session |
| Sessions.ReplyExactly | internal/lifecycle/session.go:268-280 | An acknowledgement is written exactly when it fits the encoder's and the session's frame limit |
| Sessions.AckExactly | internal/lifecycle/session.go:153-189 | An acknowledgement that does not decode does nothing; a session's first sets the entry unless there is no journal yet; a later one raises it, is refused beyond the tail, and is a regression below the entry |
| Sessions.RepairSession.SendNext | internal/lifecycle/session.go:129-151 | The frame sent is the plan from the peer's durable watermark, refused when it exceeds the session's frame limit |
| Sessions.RepairSession.HandleAck | internal/lifecycle/session.go:153-189 | An acknowledgement that decodes reconciles if it is the session's first and acknowledges otherwise, within the journal tail; the exact error, and no change of the book, when it does not |
| Sessions.RepairSession.CoordinatorAcknowledge | internal/lifecycle/watermark.go:355-369 | An acknowledgement past the journal tail is refused; any other is recorded as the book does |
| Sessions.RepairSession.HandleBatch | internal/lifecycle/session.go:224-246 | Decoding, gap, duplicate, the record loop, the durable acknowledgement and the reply each end as specified, with the specified error |
| Sessions.RepairSession.HandleSnapshot | internal/lifecycle/session.go:248-266 | Decoding, repetition, install, durable acknowledgement and reply each end as specified, with the specified error |
| Sessions.Reconciliation | internal/lifecycle/session.go:191-222 | Whatever stale entry the source holds and while its journal grows, the first acknowledgement sets it to the reported version exactly when the source has a journal reaching it and can record it; later ones only raise it, to acknowledged versions, never past the tail |
| Sessions.PlanAfterGreeting | internal/lifecycle/repair.go:402-448 | After the greeting the plan is a snapshot exactly when the peer is below the floor, else the batch that follows the reported version |
| Sessions.GreetingPastTail | internal/lifecycle/session.go:165-173 | A greeting past the source's tail is refused, yet uses up the session's one reconciliation |
| Watermarks.BookRoundTrip | internal/lifecycle/watermark.go:83-129 | Opening a persisted book gives it back |
| Watermarks.BookExactly | internal/lifecycle/watermark.go:83-129 | A book is well formed exactly when it is small enough and every entry has a usable identity and a version |
| Watermarks.OpenBookExactly | internal/lifecycle/watermark.go:83-129 | A file opens to a book exactly when it is, within the bound, the envelope of a well-formed one; a wrong checksum is told apart |
| Watermarks.AcknowledgeMeaning | internal/lifecycle/watermark.go:131-166 | An accepted acknowledgement raises one peer to the greater version, leaves the others alone and keeps the book well formed |
| Watermarks.AcknowledgeExactly | internal/lifecycle/watermark.go:131-166 | Taken exactly at or above the entry and with room if it changes it; a lower version is a regression, a missing room the limit |
| Watermarks.ReconcileMeaning | internal/lifecycle/watermark.go:168-201 | Reconciling sets one peer to exactly the reported version, zero removing its entry, and leaves the others alone |
| Watermarks.ReconcileExactly | internal/lifecycle/watermark.go:168-226 | Reconciling takes any version there is room for, zero removing the entry; forgetting removes it |
| Watermarks.SavedExactly | internal/lifecycle/watermark.go:277-290 | A needed write is reported as done exactly when it is known to have landed, and leaves the old file only when it was lost |
| Watermarks.ForgetMeaning | internal/lifecycle/watermark.go:203-226 | Forgetting removes one peer's entry and leaves the others alone |
| Watermarks.WatermarkBook.Acknowledge | internal/lifecycle/watermark.go:131-166 | The error, the memory and the file after acknowledgement, for each way the file write can end; a changed file reopens to the specified book, and memory changes only on success |
| Watermarks.WatermarkBook.Reconcile | internal/lifecycle/watermark.go:168-201 | The error, the memory and the file after reconciliation, for each way the file write can end; a changed file reopens to the specified book, and memory changes only on success |
| Watermarks.WatermarkBook.Forget | internal/lifecycle/watermark.go:203-226 | The error, the memory and the file after forgetting, for each way the file write can end; a changed file reopens to the specified book, and memory changes only on success |
| Watermarks.WatermarkSafety | internal/lifecycle/watermark.go:131-226 | In every run through the coordinator no entry passes the journal tail, the book stays bounded without zero entries, and a peer that is neither reconciled nor forgotten never moves back |
| Watermarks.CoordinatorExactly | internal/lifecycle/watermark.go:355-387 | What lies beyond the journal tail is refused, everything else is the book's to decide |
| Watermarks.BookEffects | internal/lifecycle/watermark.go:131-226 | Each event of a run through the coordinator takes effect when the tail covers it and there is room, and not beyond the tail |
| Membership.NormalizeMembers | internal/lifecycle/membership.go:276-301 | The members in ascending order, or the first reason they are refused |
| Membership.MembersExactly | internal/lifecycle/membership.go:276-301 | A member list is usable exactly when it is short enough and its identities are usable and distinct; the first of these that fails is reported |
| Membership.SortedMembersMeaning | internal/lifecycle/membership.go:276-301 | The normalized list is ascending and names the same members |
| Membership.MembersRoundTrip | internal/lifecycle/membership.go:96-142 | Opening a written membership file gives the members back, an empty list told apart from no file |
| Membership.OpenMembersExactly | internal/lifecycle/membership.go:96-142 | A membership file opens to a list exactly when it is, within the bound, the envelope of a usable list that sorts to it |
| Membership.BehindCounts | internal/lifecycle/membership.go:204-240 | The members counted as behind are exactly those whose entry is below the target |
| Membership.MembershipBook.Replace | internal/lifecycle/membership.go:146-181 | The error, the memory and the file after a replacement, for each way the file write can end, including the size limit |
| Membership.MembershipBook.Summarize | internal/lifecycle/membership.go:204-240 | The count of members at the target and the least acknowledged version |
| Membership.MembershipBook.WatermarksAt | internal/lifecycle/membership.go:242-274 | One entry per member, each at or beyond the target, exactly when there is a target, a configured set and no member behind; otherwise the reason |
| Membership.StatusAgreesWithFence | lifecycle_cli.go:420-437 | The reported status is unblocked exactly when compact would pass its own checks, and names the reason otherwise |
| Membership.FenceStepExactly | internal/lifecycle/watermark.go:131-226 | Appends, acknowledgements and fenced compactions keep every member at or above the floor; a greeting, a removal or a new member list keeps it exactly under a condition on its arguments |
| Membership.FenceEffects | lifecycle_cli.go:371-400 | The steps that keep the fence take effect: an append, an acknowledgement, and a compaction of the whole journal once every member has reached its tail |
| Membership.FenceHolds | lifecycle_cli.go:371-400 | A run keeps every member at or above the journal floor in all its states exactly when each step meets its condition where it is taken |
| Membership.FencedMemberGetsJournal | internal/lifecycle/repair.go:402-448 | A fenced member is always served from the journal, never by snapshot |
| Membership.ReconcileFence | internal/lifecycle/watermark.go:168-201 | Reconciling a member keeps the fence exactly when the reported version is at or above the floor; below it the next plan is a snapshot |
| Membership.ForgetFence | internal/lifecycle/watermark.go:203-226 | Forgetting a member keeps the fence exactly before the first compaction |
| Authority.IncrementMeaning | internal/lifecycle/authority.go:193-204 | The successor is strictly above, skips nothing but sequence zero, and is refused only at the very end |
| Authority.VersionAuthority.Next | internal/lifecycle/authority.go:133-157 | The token, the memory and the file after a successful, lost or unsynced write |
| Authority.NextExactly | internal/lifecycle/authority.go:133-157 | The token is the first usable version above memory and tail; it is handed out exactly when its write is known to have landed, and the file holds it unless the write was lost |
| Authority.OpenExactly | internal/lifecycle/authority.go:63-131 | Opening starts from the greater of file and tail or from a fresh epoch, and writes the file exactly when that changes it |
| Authority.WorldEffects | internal/lifecycle/authority.go:63-157 | In a run each call of a running allocator whose write lands hands out one more token, any other none; a start resumes from file and tail |
| Authority.NeverReused | internal/lifecycle/authority.go:49-157 | Across successful calls, failed writes, crashes and restarts no token is handed out twice and each is above the tail it was asked for |
| Authority.RefusesOnlyWhenSpent | internal/lifecycle/authority.go:133-204 | With a working disk allocation is refused exactly when the version space is spent |
| Runtime.MutationApplies | lifecycle_cli.go:238-306 | A record newer than the tail is applied exactly when it is valid, its blob is there and the journal has room; it is never a conflict or out of order, and the files keep standing for the store |
| Runtime.AcceptsExactly | lifecycle_cli.go:238-306 | A record made by put or delete can be taken exactly when key, authority and size are good and its blob is there |
| Runtime.KeyFaultExactly | internal/lifecycle/model.go:199-214 | A key passes exactly when namespace and logical key are present and within their limits |
| Runtime.MutationCrash | lifecycle_cli.go:238-306 | Each directory state inside a mutation reopens to the state before, the last to the state after, and none opens while an interrupted compaction is pending |
| Runtime.OwnCompaction | lifecycle_cli.go:371-400 | The request built from the runtime's own store is accepted whenever the tail is above the floor and all evidence reaches it, unless the checkpoint is too large |
| Runtime.OwnCompactionCrash | lifecycle_cli.go:371-400 | Between the renames of the runtime's own compaction the directory does not open; after them it opens to the same store over an empty journal |
| Runtime.CompactExactly | lifecycle_cli.go:371-400 | A compaction passes its checks exactly when the tail is above the floor, every configured member has reached it and the checkpoint fits; otherwise the first reason |
| Runtime.BaseMismatchExactly | internal/lifecycle/journal.go:558-583 | A remembered checkpoint serves as compaction base exactly when it sits at the floor |
| Runtime.RememberedBaseAfterInstall | internal/lifecycle/apply.go:84-112 | After a remote snapshot the remembered checkpoint still serves exactly when the floor did not move; otherwise every later compaction is refused |
| Runtime.LifecycleRuntime.Put | lifecycle_cli.go:238-276 | Succeeds exactly when key and authority are good, the record fits, its blob is given or there, a version is left, its write lands and nothing is cancelled; then appends and publishes exactly that present record; the directory states passed through are the append's and reopen to the state before or after, or not at all while a compaction is stranded |
| Runtime.LifecycleRuntime.Delete | lifecycle_cli.go:278-306 | The same for a tombstone |
| Runtime.LifecycleRuntime.Compact | lifecycle_cli.go:371-400 | Refused exactly for no progress, cancellation, the fence or the checkpoint size; keeps store and last version; the first of its two directory states is refused, the second reopens to the compacted state; stopped between them the directory stays refused |
| Startup.OpenRuntime | lifecycle_cli.go:127-228 | For any bytes: the first fault of journal, authority, watermarks, membership and checkpoint in that order, or a runtime with exactly the state the directory holds; on any directory the program wrote, torn anywhere, that runtime is valid and in step with its files |
| Startup.PartsExactly | lifecycle_cli.go:153-173 | Authority, watermarks, membership and the given member list are opened in that order, and the first refusal is reported |
| Startup.OpenFaultMeaning | lifecycle_cli.go:127-228 | Opening succeeds exactly when journal, checkpoint and blobs reopen and none of the other files refuses |
| Lifetimes.Lifetime | lifecycle_cli.go:127-400 | In every run of openings, mutations, compactions and crashes inside them, the store is the durable records merged in order, and the directory reopens to exactly it unless a compaction is stopped between its renames or the first header was torn |
| Lifetimes.NothingForgotten | lifecycle_cli.go:127-400 | The records durable at any moment of a run are a prefix of those durable later |
| Lifetimes.Effects | lifecycle_cli.go:238-400 | The operations of a node's life take effect: a record it can take joins history and store, a cut append joins them exactly with its last byte, a compaction empties the journal and keeps the store |
| Pager.PageUnique | storage/memory.go:188-239 | At most one list is the page of the smallest keys after a cursor |
| Pager.PageAtIsPage | storage/memory.go:195-221 | A slice of the ordered index is that page |
| Pager.InsertKeyPage | storage/page.go:20-40 | Binary search, shift and truncation equal sorted insertion cut to the limit |
| Pager.Search | storage/page.go:24-26 | The index separates the keys below from those not below |
| Pager.PageStep | storage/page.go:20-40 | Offering one more key keeps the page exact for the keys offered so far, in any order |
| Pager.MemoryStore.EnsureIndex | storage/memory.go:34-45 | The index lists exactly the stored keys in order |
| Pager.MemoryStore.Put | storage/memory.go:55-76 | Stores the value under a key that is not empty and keeps the index equal to the key set |
| Pager.MemoryStore.Delete | storage/memory.go:110-131 | Removes the key and keeps the index equal to the key set |
| Pager.MemoryStore.ListKeys | storage/memory.go:152-182 | All keys in order, with and without an index |
| Pager.MemoryStore.ListKeyPage | storage/memory.go:188-239 | With and without an index the page holds the smallest keys after the cursor up to the limit, and the cursor returned is its last key |
| Pager.MemoryStore.ScanPage | storage/memory.go:223-238 | The bounded scan over the keys in any order gives the page |
| Pager.IndexPage | storage/memory.go:195-221 | The ascending walk from the cursor gives the index slice |
| Pager.WalkCovers | storage/page.go:18-40 | Chained pages of any sizes list the keys after the first cursor once each, in order |
| Summaries.TallyMeaning | storage/inventory.go:119-136 | A list is summarized exactly when every key is well sized, from its length-prefixed bytes, with matching count and byte total |
| Summaries.TallyRefused | storage/inventory.go:119-136 | A refused list gives the error of its first key without a proper size |
| Summaries.FramedInjective | storage/inventory.go:22-29 | The hashed bytes determine the key list |
| Summaries.SummaryFixesInventory | storage/inventory.go:22-29 | With a separating hash two summaries are equal exactly when the inventories are |
| Summaries.SummarizeKeys | storage/inventory.go:107-117 | The loop computes the summary of the list or its first refused key |
| Summaries.CheckPage | storage/inventory.go:80-96 | A page passes exactly when it is within size, strictly ascending, beyond the cursor, without empty keys, and ends at the returned cursor |
| Summaries.SummarizePaged | storage/inventory.go:60-105 | Over any page source a returned summary is that of a strictly ascending list, and over a source serving a list it equals the whole-list summary |
| Summaries.StoreServes | storage/memory.go:188-239 | A store's pages are those of its ordered key list |
| Inventory.SizeFrame | inventory.go:339-378 | The halving loop settles on the specified frame size |
| Inventory.FitMeaning | inventory.go:339-364 | A frame is within limits, exceeds the byte budget only as the first key of all, and an exchange is ended only when even one key does not fit |
| Inventory.FitHalves | inventory.go:339-364 | The first size is halved as long as it is too much for the frame or the byte budget and can be halved; the outcome is that of the size reached |
| Inventory.PayloadExactly | replication/protocol.go:205-239 | Keys encode exactly when they are few enough and each is present and short enough; otherwise the first reason |
| Inventory.SendKeys | inventory.go:308-381 | Frames, cursor, completeness and counters are as specified, or the first error |
| Inventory.SentFrames | inventory.go:328-378 | The frames carry a prefix of the keys in order, each writable, and the bytes charged are theirs |
| Inventory.SentBudget | inventory.go:328-380 | Both budgets hold except for one lone first key, a list is unfinished only when a budget is spent, and a fresh exchange always sends something |
| Inventory.SendSucceeds | inventory.go:343-353 | Nothing is refused when every key fits a frame of its own |
| Inventory.SendList | inventory.go:224-238 | The list path sorts the listing as it is, repetitions included, seeks and sends as specified |
| Inventory.SortedUnique | inventory.go:224-238 | A listing has one sorted form, repetitions included |
| Inventory.SortedIndex | inventory.go:224-238 | A listing without repetitions sorts to the ordered index of its keys |
| Inventory.SendPaged | inventory.go:241-306 | The paged path returns the specified exchange over the store's ordered keys |
| Tours.PagedExchange | inventory.go:241-306 | A paged exchange sends the next keys within both budgets, completes only at the end, and returns the last key sent or the empty cursor |
| Tours.PagedReset | inventory.go:285-303 | An exchange stops unfinished with the empty cursor exactly when, behind some whole pages sent within the budgets, a key remains, the key budget is open and that key does not fit the bytes left |
| Tours.PagedSucceeds | inventory.go:241-306 | Nothing is refused when every key fits a frame of its own |
| Tours.ListAdvanced | inventory.go:224-238 | A list exchange sends the next keys within both budgets and always returns the last of them |
| Tours.TourProgress | inventory.go:108-174 | Without a reset, each exchange adds the next keys in order and at least one |
| Tours.ResetForever | inventory.go:160-174 | A tour that was reset once repeats itself and never finishes |
| Tours.TourCovers | inventory.go:108-174 | For any exchange: a tour covers the inventory, each key once and in order, exactly when no exchange is reset |
| Tours.ListTourCovers | inventory.go:224-238 | Over a listing store every tour covers the inventory under any budgets |
| Tours.PagedTourCovers | inventory.go:241-306 | Over a paging store a tour finishes exactly when the byte budget runs out behind whole pages at no position it visits, and then covers the inventory |
| Tours.SafePagedTour | inventory.go:241-306 | Without a byte budget, or with at most one page per exchange or in all, a paged tour covers the inventory |
| Tours.StuckTour | inventory.go:301-303 | For any encoder with payloads and any inventory longer than a page, with the byte budget equal to the cost of its first page: no tour finishes, and no key beyond the first page is ever advertised |
| Transport.TCPTransport.constructor | p2p/tcp_transport.go:183-198 | A new transport is open, idle and its work channel is closed |
| Transport.TCPTransport.BeginWork | p2p/tcp_transport.go:256-272 | Work starts exactly in the open phase: one more task is counted, with a new channel exactly when there was none |
| Transport.TCPTransport.EndWork | p2p/tcp_transport.go:274-285 | The last task closes the channel, which is still open then |
| Transport.TCPTransport.TrackConnection | p2p/tcp_transport.go:287-295 | A connection is tracked exactly in the open phase |
| Transport.TCPTransport.HandlePeer | p2p/tcp_transport.go:493-536 | Admitted, closed, duplicate and rejected are each told by the phase, the address and the limit; an admitted peer is registered, counted and given its work, the others change nothing |
| Transport.TCPTransport.UnregisterPeer | p2p/tcp_transport.go:538-549 | The peer at the address is removed and the gauge lowered, once, and the connection is no longer tracked |
| Transport.TCPTransport.Shutdown | p2p/tcp_transport.go:817-837 | Admissions stop, and the tracked connections are split into registered and pending ones |
| Transport.WorkEffect | p2p/tcp_transport.go:256-285 | Every step starts one work item with one task, finishes one with one task, or leaves both alone |
| Transport.AdmitExactly | p2p/tcp_transport.go:493-536 | A joining connection is admitted exactly in the open phase, under an address no peer has, within the limit if there is one; then exactly that peer is added and served, otherwise only the connection is dropped |
| Transport.TaskSteps | p2p/tcp_transport.go:256-558 | The other steps of a connection's life: accepting and dialling track it under a new identity and let it join; the end of its service removes peer, connection and task in turn |
| Transport.TransportSteps | p2p/tcp_transport.go:817-879 | Listening and dialling start work in the open phase, stopping ends it once, and a drain waits for the channel of the moment, succeeds when it is closed, and closes the transport |
| Transport.InvHolds | p2p/tcp_transport.go:256-558 | The tracking invariant holds in every interleaving |
| Transport.Tracking | p2p/tcp_transport.go:256-558 | In every interleaving the work count and gauge are the live tasks, the channel is closed exactly at zero, the peer gauge is the peer count within the limit, and every peer and tracked connection has a live task |
| Transport.NothingAdded | p2p/tcp_transport.go:817-837 | After shutdown begins no step adds a task, peer, connection or channel |
| Transport.DrainedForever | p2p/tcp_transport.go:333-343 | Once a drain's wait has succeeded there is no work, peer or connection, then and ever after |
| Transport.WaitExactly | p2p/tcp_transport.go:333-343 | A wait succeeds exactly when no task is live |
| Transport.DrainCanFinish | p2p/tcp_transport.go:846-879 | From every reachable state of a drain some continuation lets its wait succeed |

## Left out

- JSON, CRC-32C, SHA-256 and UTF-8 internals: library code, kept abstract with the laws in `Codec.Sound`, `Watermarks.SoundBook`, `Membership.SoundMembers` and the hash argument of `Summaries`.
- Capability handshake, peer authentication, TLS and the SHV1 frame codec: validation branches and simpler round trips than the journal's; the lifecycle capability is taken as granted.
- Closed journals, nil receivers, empty paths and a checkpoint path equal to the journal path: single refusals before any effect.
- Journals.Journal.Append: cancellation is one flag, looked at first, and a write that fails after some bytes in a process that goes on running is not modelled: memory and file then disagree and the source does not claim to handle it. A crash at those points is covered.
- Journals.Journal.Compact: cancellation and I/O failure are two flags, before the first write and between the two renames; a failure reported after the second rename is not modelled.
- Journals.Journal.InstallSnapshot: cancellation and I/O failure are the same two flags as for Compact.
- Journals.BuildFile: cancellation between two records and a failing temporary file are not modelled; neither has touched the journal.
- Journal size is measured on the canonical encoding of its records; a journal written by another JSON encoder can open to the same log with another size.
- Directory.VerifyRecords: a missing, a damaged and an unreadable blob are one refusal, because blobs are given as the set of those that read back and match their key.
- Directory.OpenDirectory: opens journal and checkpoint only; `Startup.OpenRuntime` adds the authority, watermark and membership files in the source's order.
- Startup.OpenRuntime: the authority file is an optional version, without its envelope bytes and identity check.
- Applying.Applier.EnsureBlob: a blob store whose Get or Put fails for another reason than a missing blob is not an outcome; the source returns that error before any effect on the journal.
- The receiver's own compactions, several sources feeding one journal, and both repair directions sharing one watermark entry: outside what one repair direction guarantees.
- `RepairSession.Run`'s notification channels, timers and retry delays, and acknowledgements lost while they are written; convergence is stated over send, handle and acknowledge rounds.
- `recordsForRawSync`, `waitForVersion`, raw blob put and repair scheduling in main.go: easy members or timing.
- Inventory.SendPaged: the pager checks of inventory.go:279-298 against third-party pagers are absent, because the memory store it runs over cannot fail them, and so are write failures, after which the exchange ends with that error.
- FileStore's index refresh and directory handling: operating system behaviour.
- Stores that change between the exchanges of one tour, and the scheduler's entries per peer: tours are over a fixed inventory.
- Pager.InsertKeyPage: works on a sequence, so growing and shifting the slice in place and its spare capacity are not captured.
- Transport metrics other than the peer and goroutine gauges, deadlines on sockets, the disconnect callback and the forced close after an expired drain: they do not change the tracked state.
