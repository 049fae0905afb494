/** A node's lifecycle runtime: local mutations and compaction over its parts (lifecycle_cli.go). */
module Runtime {
  import opened Bytes
  import opened Versions
  import opened Outcomes
  import opened Records
  import opened Checkpoints
  import opened Merging
  import opened Codec
  import opened Logs
  import opened Journals
  import opened Crashes
  import opened Directory
  import opened Applying
  import opened Authority
  import opened Watermarks
  import opened Membership

  // ---- values ----

  lemma MeaningBounded(env: Env, checkpoint: Option<Checkpoint>, log: Log)
    requires Matches(env, checkpoint, log) && WellFormed(env, log)
    ensures var v := Meaning(checkpoint, log); Keyed(v) && Bounded(v, log.Last())
  {
    BaseView(env, checkpoint, log);
    ReplayBounded(Meaning(checkpoint, Log(log.floor, [])), log.floor, log.records);
  }

  lemma MeaningValid(env: Env, checkpoint: Option<Checkpoint>, log: Log)
    requires Matches(env, checkpoint, log) && WellFormed(env, log)
    ensures forall k :: k in Meaning(checkpoint, log) ==> Valid(env, Meaning(checkpoint, log)[k])
  {
    hide Validate;
    var base := Meaning(checkpoint, Log(log.floor, []));
    MergedFrom(base, log.records);
    if checkpoint.Some? {
      ViewOfKeys(checkpoint.value.records);
    }
  }

  lemma FaultKinds(env: Env, r: Record)
    ensures Validate(env, r) != Some(JournalVersionOrder) && Validate(env, r) != Some(Conflict)
  {
  }

  /** A record a running node can take: well formed, with its blob, and with room left in the journal. */
  predicate Accepts(env: Env, blobs: set<seq<byte>>, log: Log, r: Record) {
    && Validate(env, r).None? && BlobPresent(blobs, r)
    && |log.records| < env.maxJournalEntries && |JournalBytes(env, log)| + |Entry(env, r)| <= env.maxJournalBytes
  }

  /** The state after r has been appended and published. */
  function Taken(o: Opened, r: Record): Opened {
    Opened(Log(o.log.floor, o.log.records + [r]), o.checkpoint, o.view[KeyOf(r) := r])
  }

  /** The store is what checkpoint and journal stand for, the checkpoint is at the floor, and every blob is there. */
  ghost predicate Settled(env: Env, blobs: set<seq<byte>>, o: Opened) {
    && Matches(env, o.checkpoint, o.log) && Storable(env, o.log)
    && o.view == Meaning(o.checkpoint, o.log) && AllVerified(blobs, o.checkpoint, o.log)
  }

  /**
   * A record newer than the tail is applied exactly when the node can take it, never refused for its order or as
   * a conflict, and the store stays equal to what the files stand for.
   */
  lemma MutationApplies(env: Env, blobs: set<seq<byte>>, o: Opened, r: Record)
    requires Matches(env, o.checkpoint, o.log) && Storable(env, o.log) && o.view == Meaning(o.checkpoint, o.log)
    requires o.log.Last().Lt(r.version)
    ensures var res := ApplyRecord(env, blobs, Replica(o.log, o.view), r);
            && (res.Ok? <==> Accepts(env, blobs, o.log, r))
            && (res.Err? ==> res.error != JournalVersionOrder && res.error != Conflict)
            && (res.Ok? ==>
                  && res.value == (Replica(Taken(o, r).log, Taken(o, r).view), ApplyResult(Applied, r.version))
                  && AppendTo(env, o.log, r) == Ok(Taken(o, r).log))
    ensures Accepts(env, blobs, o.log, r) ==>
              var next := Taken(o, r);
              Matches(env, next.checkpoint, next.log) && Storable(env, next.log) && next.view == Meaning(next.checkpoint, next.log)
  {
    hide NormalForm, JournalBytes, Validate, Envelope, Keyed;
    FaultKinds(env, r);
    MeaningBounded(env, o.checkpoint, o.log);
    MergeNewer(o.view, o.log.Last(), r);
    if AppendTo(env, o.log, r).Ok? {
      AppendStorable(env, o.log, r);
      assert (o.log.records + [r])[..|o.log.records|] == o.log.records;
    }
  }

  /**
   * The request a runtime builds from its own store is accepted whenever the tail is above the floor and
   * every member has reached it; only the size of the checkpoint can still refuse it.
   */
  lemma OwnCompaction(env: Env, checkpoint: Option<Checkpoint>, log: Log, evidence: seq<Version>)
    requires Matches(env, checkpoint, log) && Storable(env, log) && log.floor.Lt(log.Last())
    requires forall i :: 0 <= i < |evidence| ==> log.Last().Le(evidence[i])
    ensures Keyed(Meaning(checkpoint, log))
    ensures var c := Checkpoint(log.Last(), SnapshotOf(Meaning(checkpoint, log)));
            && NormalForm(env, c)
            && CompactTo(env, log, CompactionRequest(c.watermark, c.records, checkpoint, evidence)) ==
               match CheckpointBytes(env, c)
               case Err(e) => Err(e)
               case Ok(_) => Ok((c, Log(log.Last(), [])))
  {
    hide NormalForm, JournalBytes, CheckpointBytes, Validate;
    OwnSnapshot(env, checkpoint, log);
    var c := Checkpoint(log.Last(), SnapshotOf(Meaning(checkpoint, log)));
    NormalizeMeaning(env, c);
    CutAtLast(log);
    CompactionState(env, checkpoint, log, |log.records|);
    assert log.records[..|log.records|] == log.records && log.records[|log.records|..] == [];
  }

  lemma OwnSnapshot(env: Env, checkpoint: Option<Checkpoint>, log: Log)
    requires Matches(env, checkpoint, log) && WellFormed(env, log) && !log.Last().IsZero()
    ensures Keyed(Meaning(checkpoint, log))
    ensures NormalForm(env, Checkpoint(log.Last(), SnapshotOf(Meaning(checkpoint, log))))
  {
    MeaningBounded(env, checkpoint, log);
    MeaningValid(env, checkpoint, log);
    SnapshotNormalForm(env, Meaning(checkpoint, log), log.Last());
  }

  lemma CutAtLast(log: Log)
    requires Increasing(log.floor, log.records)
    ensures Cut(log.records, log.Last()) == |log.records|
  {
    CutUnique(log.records, log.Last(), |log.records|);
  }

  function WatermarkOf(base: Option<Checkpoint>): Version {
    if base.None? then Zero else base.value.watermark
  }

  /**
   * A remembered checkpoint serves as compaction base exactly when it sits at the journal's floor. After a
   * remote snapshot has moved the floor, the checkpoint remembered from before no longer does, and every
   * request that passes the earlier checks is refused.
   */
  lemma BaseMismatchExactly(env: Env, log: Log, q: CompactionRequest)
    requires q.base.Some? ==> NormalForm(env, q.base.value)
    requires log.floor.Lt(q.watermark) && q.watermark.Le(log.Last())
    requires forall i :: 0 <= i < |q.peerWatermarks| ==> q.watermark.Le(q.peerWatermarks[i])
    ensures CompactionBase(env, log.floor, q.base).Err? <==> WatermarkOf(q.base) != log.floor
    ensures WatermarkOf(q.base) != log.floor ==> CompactTo(env, log, q) == Err(CompactionBaseMismatch)
  {
    hide NormalForm, ApplyAll;
    if q.base.Some? {
      NormalizeMeaning(env, q.base.value);
    }
  }

  /**
   * Installing a remote snapshot leaves the remembered checkpoint alone. It still serves as base afterwards
   * exactly when the snapshot did not move the floor; otherwise compaction stays refused until a restart.
   */
  lemma RememberedBaseAfterInstall(env: Env, remembered: Option<Checkpoint>, log: Log, c: Checkpoint, q: CompactionRequest, later: Log)
    requires Matches(env, remembered, log) && InstallTo(env, log, c).Ok?
    requires later.floor == InstallTo(env, log, c).value.1.floor && q.base == remembered
    requires later.floor.Lt(q.watermark) && q.watermark.Le(later.Last())
    requires forall i :: 0 <= i < |q.peerWatermarks| ==> q.watermark.Le(q.peerWatermarks[i])
    ensures CompactionBase(env, later.floor, remembered).Ok? <==> c.watermark == log.floor
    ensures c.watermark != log.floor ==> CompactTo(env, later, q) == Err(CompactionBaseMismatch)
  {
    hide NormalForm, ApplyAll, CheckpointBytes;
    NormalizeOk(env, c);
    BaseMismatchExactly(env, later, q);
  }

  // ---- what the directory reopens to ----

  /** The checkpoint file holds this checkpoint. */
  ghost predicate OnFile(env: Env, checkpoint: Option<Checkpoint>, file: Option<seq<byte>>) {
    match checkpoint
    case None => file.None?
    case Some(c) => CheckpointBytes(env, c).Ok? && file == Some(CheckpointBytes(env, c).value)
  }

  /** An interrupted compaction or install has left a checkpoint file that is not at the journal's floor. */
  ghost predicate Stranded(env: Env, floor: Version, file: Option<seq<byte>>) {
    WrittenCheckpoint(env, file) && file.Some? && LoadCheckpoint(env, file.value).value.watermark != floor
  }

  /** What a directory whose journal opens to o's reopens to. */
  lemma ReopensTo(env: Env, blobs: set<seq<byte>>, img: Image, o: Opened)
    requires Sound(env) && Settled(env, blobs, o) && OpenLog(env, img.journal) == Ok(o.log)
    ensures OnFile(env, o.checkpoint, img.checkpoint) ==>
              Reopen(env, blobs, img) == Ok(o) && !Stranded(env, o.log.floor, img.checkpoint) && WrittenCheckpoint(env, img.checkpoint)
    ensures Stranded(env, o.log.floor, img.checkpoint) ==> Reopen(env, blobs, img) == Err(CheckpointFloorMismatch)
  {
    hide Storable, Sound, Rebuild, LoadCheckpoint, CheckpointBytes, JournalBytes, OpenLog, Meaning, AllVerified, NormalForm;
    if OnFile(env, o.checkpoint, img.checkpoint) {
      ReopenStored(env, blobs, Image(JournalBytes(env, o.log), img.checkpoint), o.checkpoint, o.log);
      OpenLogRoundTrip(env, o.log);
      if o.checkpoint.Some? {
        CheckpointRoundTrip(env, o.checkpoint.value);
      }
    }
  }

  /**
   * The directory states inside an append: all but the last reopen to the state before, the last to the state
   * after, unless an interrupted compaction has made the directory unreadable.
   */
  lemma MutationCrash(env: Env, blobs: set<seq<byte>>, o: Opened, r: Record, file: Option<seq<byte>>, i: nat)
    requires Sound(env) && Settled(env, blobs, o) && o.log.Last().Lt(r.version) && Accepts(env, blobs, o.log, r)
    requires OnFile(env, o.checkpoint, file) || Stranded(env, o.log.floor, file)
    requires i < |AppendTrace(env, o.log, r, file)|
    ensures var trace := AppendTrace(env, o.log, r, file);
            && Settled(env, blobs, Taken(o, r)) && Produced(env, trace[i])
            && Reopen(env, blobs, trace[i]) ==
               if Stranded(env, o.log.floor, file) then Err(CheckpointFloorMismatch)
               else Ok(if i == |trace| - 1 then Taken(o, r) else o)
  {
    hide Storable, Sound, Reopen, LoadCheckpoint, CheckpointBytes, JournalBytes, OpenLog, Meaning, Matches, AppendTrace, Validate,
      Stranded, OnFile, ApplyRecord, AppendTo, WrittenCheckpoint;
    var img := AppendTrace(env, o.log, r, file)[i];
    MutationApplies(env, blobs, o, r);
    AppendTraceOpens(env, o.log, r, file, i);
    AppendProduced(env, o.log, r, file, i);
    StrandedFile(env, o.log.floor, file);
    ReopensTo(env, blobs, img, if i == |AppendTrace(env, o.log, r, file)| - 1 then Taken(o, r) else o);
  }

  lemma StrandedFile(env: Env, floor: Version, file: Option<seq<byte>>)
    ensures Stranded(env, floor, file) ==> WrittenCheckpoint(env, file)
  {
  }

  lemma AppendProduced(env: Env, log: Log, r: Record, file: Option<seq<byte>>, i: nat)
    requires Storable(env, log) && AppendTo(env, log, r).Ok? && i < |AppendTrace(env, log, r, file)|
    ensures WrittenCheckpoint(env, file) ==> Produced(env, AppendTrace(env, log, r, file)[i])
  {
    hide WrittenCheckpoint, JournalBytes, Storable;
    var log' := AppendTo(env, log, r).value;
    AppendBytes(env, log, r);
    AppendStorable(env, log, r);
    assert AppendTrace(env, log, r, file)[i].journal <= JournalBytes(env, log');
  }

  /** The checkpoint a compaction writes for o, and the state it leaves. */
  ghost function Folded(o: Opened): Checkpoint
    requires Keyed(o.view)
  {
    Checkpoint(o.log.Last(), SnapshotOf(o.view))
  }

  ghost function Compacted(o: Opened): Opened
    requires Keyed(o.view)
  {
    Opened(Log(o.log.Last(), []), Some(Folded(o)), o.view)
  }

  /**
   * The two directory states of a compaction of the whole journal: between the renames the directory does not open;
   * after the second it opens to the same store over an empty journal.
   */
  lemma OwnCompactionCrash(env: Env, blobs: set<seq<byte>>, o: Opened)
    requires Sound(env) && Settled(env, blobs, o) && o.log.floor.Lt(o.log.Last())
    ensures Keyed(o.view)
    ensures CheckpointBytes(env, Folded(o)).Ok? ==>
              var file := Some(CheckpointBytes(env, Folded(o)).value);
              var window, done := Image(JournalBytes(env, o.log), file), Image(JournalBytes(env, Compacted(o).log), file);
              && Settled(env, blobs, Compacted(o)) && OnFile(env, Compacted(o).checkpoint, file)
              && Stranded(env, o.log.floor, file) && Produced(env, window) && Produced(env, done)
              && Reopen(env, blobs, window) == Err(CheckpointFloorMismatch)
              && Reopen(env, blobs, done) == Ok(Compacted(o))
  {
    hide Storable, Sound, Reopen, LoadCheckpoint, JournalBytes, Meaning, Matches, CompactTo, NormalForm, AllVerified, SnapshotOf,
      CheckpointBytes, Keyed;
    OwnCompaction(env, o.checkpoint, o.log, []);
    if CheckpointBytes(env, Folded(o)).Ok? {
      var q := CompactionRequest(o.log.Last(), SnapshotOf(o.view), o.checkpoint, []);
      CompactionCrash(env, blobs, o.checkpoint, o.log, q);
      MatchedCompaction(env, o.checkpoint, o.log, q);
      CheckpointRoundTrip(env, Folded(o));
      var done := Image(JournalBytes(env, Compacted(o).log), Some(CheckpointBytes(env, Folded(o)).value));
      StoredParts(env, done, Some(Folded(o)), Compacted(o).log);
    }
  }

  lemma StoredParts(env: Env, img: Image, checkpoint: Option<Checkpoint>, log: Log)
    requires Stored(env, img, checkpoint, log)
    ensures Matches(env, checkpoint, log) && Storable(env, log)
  {
  }

  // ---- the runtime object ----

  lemma MoreBlobs(env: Env, blobs: set<seq<byte>>, more: set<seq<byte>>, o: Opened)
    requires Settled(env, blobs, o) && blobs <= more
    ensures Settled(env, more, o)
  {
    hide Matches, Storable, Meaning;
  }

  function BytesOf(data: Option<seq<byte>>): seq<byte> {
    if data.None? then [] else data.value
  }

  /** ValidateKey */
  function KeyFault(env: Env, namespace: seq<byte>, logicalKey: seq<byte>): Option<Error> {
    if namespace == [] then Some(NamespaceEmpty)
    else if |namespace| > env.limits.maxNamespaceBytes then Some(NamespaceTooLarge)
    else if logicalKey == [] then Some(LogicalKeyEmpty)
    else if |logicalKey| > env.limits.maxLogicalKeyBytes then Some(LogicalKeyTooLarge)
    else None
  }

  datatype Mutation = Mutation(record: Record, result: ApplyResult)

  /**
   * A local mutation under version r.version: applied exactly when the node can take the record, and then
   * appended and published with every other key keeping its record; otherwise nothing changes.
   */
  ghost predicate Commits(
    env: Env, blobs: set<seq<byte>>, before: Opened, after: Opened, r: Record, canceled: bool, res: Result<Mutation>)
  {
    if !canceled && Accepts(env, blobs, before.log, r) then
      && before.log.Last().Lt(r.version)
      && res == Ok(Mutation(r, ApplyResult(Applied, r.version))) && after == Taken(before, r)
    else
      && res.Err? && (canceled ==> res.error == Canceled) && res.error != JournalVersionOrder && res.error != Conflict
      && after == before
  }

  /** The encoded record, in its envelope, still fits the journal, and by itself the record limit. */
  predicate Fits(env: Env, log: Log, r: Record) {
    && |env.encode(r)| <= env.limits.maxRecordBytes && |log.records| < env.maxJournalEntries
    && |JournalBytes(env, log)| + |env.encode(r)| + 8 <= env.maxJournalBytes
  }

  /** A key may be used when namespace and logical key are there and within their limits. */
  predicate GoodKey(env: Env, namespace: seq<byte>, logicalKey: seq<byte>) {
    0 < |namespace| <= env.limits.maxNamespaceBytes && 0 < |logicalKey| <= env.limits.maxLogicalKeyBytes
  }

  predicate GoodAuthority(env: Env, authorityID: seq<byte>) {
    0 < |authorityID| <= env.limits.maxAuthorityIDBytes && env.printable(authorityID)
  }

  lemma KeyFaultExactly(env: Env, namespace: seq<byte>, logicalKey: seq<byte>)
    ensures KeyFault(env, namespace, logicalKey).None? <==> GoodKey(env, namespace, logicalKey)
    ensures namespace == [] ==> KeyFault(env, namespace, logicalKey) == Some(NamespaceEmpty)
    ensures |namespace| > env.limits.maxNamespaceBytes && namespace != [] ==>
              KeyFault(env, namespace, logicalKey) == Some(NamespaceTooLarge)
    ensures 0 < |namespace| <= env.limits.maxNamespaceBytes && logicalKey == [] ==>
              KeyFault(env, namespace, logicalKey) == Some(LogicalKeyEmpty)
  {
  }

  /** A record made by put or delete can be taken exactly when its key, authority and size are good and its blob is there. */
  lemma AcceptsExactly(env: Env, blobs: set<seq<byte>>, log: Log, r: Record)
    requires r.version != Zero
    requires (r.state.Present? && |r.blobKey| == 32) || (r.state.Deleted? && r.blobKey == [])
    ensures Accepts(env, blobs, log, r) <==>
            && GoodKey(env, r.namespace, r.logicalKey) && GoodAuthority(env, r.authorityID) && Fits(env, log, r)
            && (r.state.Present? ==> r.blobKey in blobs)
  {
    hide Validate, JournalBytes;
    ValidExactly(env, r);
  }

  /** What a mutation under the next version does, given what refuses it before a version is asked for. */
  ghost predicate Mutated(
    env: Env, blobs: set<seq<byte>>, before: Opened, after: Opened, refused: Option<Error>, next: Result<Version>, make: Version -> Record,
    canceled: bool, res: Result<Mutation>)
  {
    if refused.Some? then res == Err(refused.value) && after == before
    else if next.Err? then res == Err(next.error) && after == before
    else Commits(env, blobs, before, after, make(next.value), canceled, res)
  }

  /**
   * When a mutation succeeds, from what the caller gives: its key and authority are good, its record fits, its blob is
   * there, a version above everything seen is left and its write lands. Then exactly that record is appended and published.
   */
  ghost predicate Succeeds(
    env: Env, blobThere: bool, seen: Version, w: Write, canceled: bool, r: Record, before: Opened, after: Opened, res: Result<Mutation>)
  {
    && (res.Ok? <==>
          && GoodKey(env, r.namespace, r.logicalKey) && GoodAuthority(env, r.authorityID) && Fits(env, before.log, r) && blobThere
          && seen != Version(MaxU64, MaxU64) && w.Landed? && !canceled)
    && (res.Ok? ==>
          && res.value == Mutation(r, ApplyResult(Applied, r.version)) && seen.Lt(r.version)
          && after.log == Log(before.log.floor, before.log.records + [r]) && after.view == before.view[KeyOf(r) := r])
    && (res.Err? ==> after == before)
  }

  /** The directory states a mutation passes through. */
  ghost function MutationTrace(env: Env, before: Opened, file: Option<seq<byte>>, res: Result<Mutation>): seq<Image> {
    if res.Ok? then AppendTrace(env, before.log, res.value.record, file) else []
  }

  /** Each of them reopens to the state before or, the last one, after; none opens while the directory is stranded. */
  ghost predicate Exposes(env: Env, blobs: set<seq<byte>>, before: Opened, after: Opened, synced: bool, trace: seq<Image>) {
    forall i :: 0 <= i < |trace| ==>
      && Produced(env, trace[i])
      && Reopen(env, blobs, trace[i]) ==
         if synced then Ok(if i == |trace| - 1 then after else before) else Err(CheckpointFloorMismatch)
  }

  class LifecycleRuntime {
    const env: Env
    const authorityID: seq<byte>
    const journal: Journal
    const store: Store
    const applier: Applier
    const authority: VersionAuthority
    const book: WatermarkBook
    const membership: MembershipBook
    var snapshot: Option<Checkpoint>

    constructor (env: Env, authorityID: seq<byte>, journal: Journal, store: Store, applier: Applier,
                 authority: VersionAuthority, book: WatermarkBook, membership: MembershipBook, snapshot: Option<Checkpoint>)
      ensures this.env == env && this.authorityID == authorityID && this.journal == journal && this.store == store
      ensures this.applier == applier && this.authority == authority && this.book == book && this.membership == membership
      ensures this.snapshot == snapshot
    {
      this.env, this.authorityID, this.journal, this.store := env, authorityID, journal, store;
      this.applier, this.authority, this.book, this.membership := applier, authority, book, membership;
      this.snapshot := snapshot;
    }

    ghost predicate Wired()
    {
      journal.env == env && store.env == env && applier.env == env && applier.journal == journal && applier.store == store
    }

    ghost function State(): Opened
      reads this, journal, store
    {
      Opened(journal.Contents(), snapshot, store.records)
    }

    /**
     * Store, remembered checkpoint, journal and blobs agree. The checkpoint file is the remembered one, or an
     * interrupted compaction has left a later one in its place.
     */
    ghost predicate Valid()
      reads this, journal, journal.disk, store, applier, authority, book, membership
    {
      && Wired() && journal.Valid() && book.Valid() && membership.Valid() && authority.current.epoch != 0
      && Settled(env, applier.Sealed(), State()) && Keyed(store.records)
      && (Synced() || Stranded(env, journal.floor, journal.disk.checkpoint))
    }

    /** The checkpoint file is the remembered checkpoint, so the directory opens to this runtime's state. */
    ghost predicate Synced()
      reads this, journal, journal.disk
    {
      OnFile(env, snapshot, journal.disk.checkpoint)
    }

    /**
     * put: a present record under a freshly allocated version. data is None for a nil slice, in which case the
     * blob must be in the store already; key, when given, must be the key of the data.
     */
    method Put(namespace: seq<byte>, logicalKey: seq<byte>, data: Option<seq<byte>>, key: Option<seq<byte>>, w: Write, canceled: bool)
        returns (res: Result<Mutation>)
      requires Valid()
      modifies applier`blobs, store`records, journal, journal.disk, authority
      ensures Valid() && snapshot == old(snapshot) && (Synced() <==> old(Synced()))
      ensures var blobKey := env.digest(BytesOf(data));
              var refused := if KeyFault(env, namespace, logicalKey).Some? then KeyFault(env, namespace, logicalKey)
                             else if key.Some? && key.value != blobKey then Some(BlobMismatch) else None;
              var (next, a) := NextFrom(old(authority.State()), old(journal.last), w);
              && authority.State() == (if refused.Some? then old(authority.State()) else a)
              && Mutated(env, if data.Some? then {blobKey} else old(applier.Sealed()), old(State()), State(), refused, next,
                         v => Record(namespace, logicalKey, Present, blobKey, v, authorityID), canceled, res)
      ensures var blobKey := env.digest(BytesOf(data));
              var blobThere := data.Some? || blobKey in old(applier.Sealed());
              Succeeds(env, (key.Some? ==> key.value == blobKey) && blobThere, Max(old(authority.current), old(journal.last)), w, canceled,
                       Record(namespace, logicalKey, Present, blobKey, authority.current, authorityID), old(State()), State(), res)
      ensures var trace := MutationTrace(env, old(State()), journal.disk.checkpoint, res);
              && journal.disk.trace == old(journal.disk.trace) + trace
              && Exposes(env, applier.Sealed(), old(State()), State(), Synced(), trace)
    {
      hide Settled, Commits, Exposes, MutationTrace, Sound, Stranded, OnFile, OpenBook, SoundBook, BookFault, OpenMembers, SoundMembers,
        Storable, NextFrom, Keyed, KeyFault, GoodKey, Fits, GoodAuthority;
      KeyFaultExactly(env, namespace, logicalKey);
      var fault := KeyFault(env, namespace, logicalKey);
      if fault.Some? {
        NothingExposed(env, applier.Sealed(), State(), Synced(), journal.disk.checkpoint, fault.value);
        return Err(fault.value);
      }
      if key.Some? && env.digest(BytesOf(data)) != key.value {
        NothingExposed(env, applier.Sealed(), State(), Synced(), journal.disk.checkpoint, BlobMismatch);
        return Err(BlobMismatch);
      }
      DigestLength(env, BytesOf(data));
      res := Advance(namespace, logicalKey, Present, env.digest(BytesOf(data)), data, w, canceled);
    }

    /** delete: a tombstone under a freshly allocated version. */
    method Delete(namespace: seq<byte>, logicalKey: seq<byte>, w: Write, canceled: bool) returns (res: Result<Mutation>)
      requires Valid()
      modifies applier`blobs, store`records, journal, journal.disk, authority
      ensures Valid() && snapshot == old(snapshot) && (Synced() <==> old(Synced()))
      ensures var refused := KeyFault(env, namespace, logicalKey);
              var (next, a) := NextFrom(old(authority.State()), old(journal.last), w);
              && authority.State() == (if refused.Some? then old(authority.State()) else a)
              && Mutated(env, old(applier.Sealed()), old(State()), State(), refused, next,
                         v => Record(namespace, logicalKey, Deleted, [], v, authorityID), canceled, res)
      ensures Succeeds(env, true, Max(old(authority.current), old(journal.last)), w, canceled,
                       Record(namespace, logicalKey, Deleted, [], authority.current, authorityID), old(State()), State(), res)
      ensures var trace := MutationTrace(env, old(State()), journal.disk.checkpoint, res);
              && journal.disk.trace == old(journal.disk.trace) + trace
              && Exposes(env, applier.Sealed(), old(State()), State(), Synced(), trace)
    {
      hide Settled, Commits, Exposes, MutationTrace, Sound, Stranded, OnFile, OpenBook, SoundBook, BookFault, OpenMembers, SoundMembers,
        Storable, NextFrom, Keyed, KeyFault, GoodKey, Fits, GoodAuthority;
      KeyFaultExactly(env, namespace, logicalKey);
      var fault := KeyFault(env, namespace, logicalKey);
      if fault.Some? {
        NothingExposed(env, applier.Sealed(), State(), Synced(), journal.disk.checkpoint, fault.value);
        return Err(fault.value);
      }
      res := Advance(namespace, logicalKey, Deleted, [], None, w, canceled);
    }

    /** What both mutations do once their arguments are checked: allocate a version and commit. */
    method Advance(namespace: seq<byte>, logicalKey: seq<byte>, state: Records.State, blobKey: seq<byte>, supplied: Option<seq<byte>>,
                   w: Write, canceled: bool) returns (res: Result<Mutation>)
      requires Valid() && ((state.Present? && |blobKey| == 32) || (state.Deleted? && blobKey == []))
      requires supplied.Some? ==> state.Present? && env.digest(supplied.value) == blobKey
      modifies applier`blobs, store`records, journal, journal.disk, authority
      ensures Valid() && snapshot == old(snapshot) && (Synced() <==> old(Synced()))
      ensures var (next, a) := NextFrom(old(authority.State()), old(journal.last), w);
              && authority.State() == a
              && Mutated(env, if supplied.Some? then {blobKey} else old(applier.Sealed()), old(State()), State(), None, next,
                         v => Record(namespace, logicalKey, state, blobKey, v, authorityID), canceled, res)
      ensures Succeeds(env, state.Present? && supplied.None? ==> blobKey in old(applier.Sealed()),
                       Max(old(authority.current), old(journal.last)), w, canceled,
                       Record(namespace, logicalKey, state, blobKey, authority.current, authorityID), old(State()), State(), res)
      ensures var trace := MutationTrace(env, old(State()), journal.disk.checkpoint, res);
              && journal.disk.trace == old(journal.disk.trace) + trace
              && Exposes(env, applier.Sealed(), old(State()), State(), Synced(), trace)
    {
      hide Settled, Commits, Exposes, MutationTrace, Sound, Stranded, OnFile, OpenBook, SoundBook, BookFault, OpenMembers, SoundMembers,
        Storable, NextFrom, Keyed, GoodKey, Fits, GoodAuthority;
      var version := authority.Next(journal.last, w);
      RefusesOrRises(old(authority.State()), journal.last, w);
      NextExactly(old(authority.State()), journal.last, w);
      if version.Err? {
        NothingExposed(env, applier.Sealed(), State(), Synced(), journal.disk.checkpoint, version.error);
        return Err(version.error);
      }
      var r := Record(namespace, logicalKey, state, blobKey, version.value, authorityID);
      ghost var before, blobs := State(), if supplied.Some? then {blobKey} else applier.Sealed();
      res := Commit(r, supplied, canceled);
      CommitsExactly(env, blobs, before, State(), r, canceled, res);
    }

    /** The applier call both mutations end in. */
    method Commit(r: Record, supplied: Option<seq<byte>>, canceled: bool) returns (res: Result<Mutation>)
      requires Valid() && journal.last.Lt(r.version)
      requires supplied.Some? ==> r.state.Present? && env.digest(supplied.value) == r.blobKey
      modifies applier`blobs, store`records, journal, journal.disk
      ensures Valid() && snapshot == old(snapshot) && (Synced() <==> old(Synced()))
      ensures Commits(env, if supplied.Some? then {r.blobKey} else old(applier.Sealed()), old(State()), State(), r, canceled, res)
      ensures var trace := MutationTrace(env, old(State()), journal.disk.checkpoint, res);
              && journal.disk.trace == old(journal.disk.trace) + trace
              && Exposes(env, applier.Sealed(), old(State()), State(), Synced(), trace)
    {
      hide Matches, Storable, Sound, AllVerified, ApplyRecord, OpenLog, Reopen, Meaning, CheckpointBytes, AppendTrace,
        JournalBytes, Verified, Accepts, Exposes, OnFile, Stranded, Produced, OpenBook, SoundBook, BookFault, OpenMembers, SoundMembers, Keyed;
      ghost var before, sealed := State(), applier.Sealed();
      MutationApplies(env, applier.Available(r, supplied), before, r);
      var outcome := applier.Apply(r, supplied, canceled);
      ghost var sealed' := applier.Sealed();
      MoreBlobs(env, sealed, sealed', before);
      if outcome.Err? {
        NothingExposed(env, sealed', before, Synced(), journal.disk.checkpoint, outcome.error);
        return Err(outcome.error);
      }
      AcceptsFrom(env, if supplied.Some? then {r.blobKey} else sealed, sealed', before.log, r);
      MutationExposes(env, sealed', before, r, journal.disk.checkpoint);
      TakenSettled(env, sealed', before, r);
      res := Ok(Mutation(r, outcome.value));
    }

    /**
     * compact: folds the whole journal into a checkpoint of the store. Success needs a tail above the floor and every
     * member at the tail; then only the checkpoint's size can still refuse it. Between its two renames the directory
     * does not open, also when the call stops there and the node goes on; after the second it opens to the compacted
     * state, with the same store.
     */
    method Compact(canceled: bool, interrupted: bool) returns (err: Option<Error>)
      requires Valid()
      modifies this, journal, journal.disk
      ensures Valid() && journal.last == old(journal.last)
      ensures var fence := FenceAt(membership.configured, membership.members, book.watermarks, journal.last);
              var fault := CompactFault(env, old(State()), fence, canceled);
              && err == (if fault.Some? then fault else if interrupted then Some(Canceled) else None)
              && State() == (if err.None? then Compacted(old(State())) else old(State()))
              && (Synced() <==> (err.None? || (fault.Some? && old(Synced()))))
              && var trace := if fault.Some? then []
                              else RenameTrace(Image(old(journal.disk.journal), journal.disk.checkpoint), journal.disk.Now(), interrupted);
                 && journal.disk.trace == old(journal.disk.trace) + trace
                 && forall i :: 0 <= i < |trace| ==>
                      && Produced(env, trace[i])
                      && Reopen(env, applier.Sealed(), trace[i]) == (if i == 0 then Err(CheckpointFloorMismatch) else Ok(State()))
    {
      hide Matches, Storable, Sound, AllVerified, CompactTo, NormalForm, OpenLog, Reopen, Meaning, Keyed,
        CheckpointBytes, JournalBytes, Verified, SnapshotOf, Behind, OnFile, Stranded, Produced, OpenBook, SoundBook, BookFault,
        OpenMembers, SoundMembers;
      var target := journal.last;
      if target.Le(journal.floor) {
        return Some(CompactionNoProgress);
      }
      if canceled {
        return Some(Canceled);
      }
      var evidence := membership.WatermarksAt(book.watermarks, target);
      if evidence.Err? {
        return Some(evidence.error);
      }
      FenceEvidence(membership.configured, membership.members, book.watermarks, target);
      ghost var before := State();
      OwnCompaction(env, snapshot, before.log, evidence.value);
      OwnCompactionCrash(env, applier.Sealed(), before);
      var records := store.Snapshot();
      err := journal.Compact(CompactionRequest(target, records, snapshot, evidence.value), false, interrupted);
      NotBoth(env, before, journal.disk.checkpoint);
      if err.Some? {
        return;
      }
      snapshot := Some(Checkpoint(target, records));
    }
  }

  lemma DigestLength(env: Env, data: seq<byte>)
    requires Sound(env)
    ensures |env.digest(data)| == 32
  {
  }

  lemma CommitsExactly(
    env: Env, blobs: set<seq<byte>>, before: Opened, after: Opened, r: Record, canceled: bool, res: Result<Mutation>)
    requires Commits(env, blobs, before, after, r, canceled, res) && r.version != Zero
    requires (r.state.Present? && |r.blobKey| == 32) || (r.state.Deleted? && r.blobKey == [])
    ensures res.Ok? <==>
            && !canceled && GoodKey(env, r.namespace, r.logicalKey) && GoodAuthority(env, r.authorityID) && Fits(env, before.log, r)
            && (r.state.Present? ==> r.blobKey in blobs)
    ensures res.Ok? ==>
              && res.value == Mutation(r, ApplyResult(Applied, r.version))
              && after.log == Log(before.log.floor, before.log.records + [r]) && after.view == before.view[KeyOf(r) := r]
    ensures res.Err? ==> after == before
  {
    hide Accepts, GoodAuthority, GoodKey, Fits;
    AcceptsExactly(env, blobs, before.log, r);
  }

  lemma NothingExposed(env: Env, blobs: set<seq<byte>>, o: Opened, synced: bool, file: Option<seq<byte>>, e: Error)
    ensures MutationTrace(env, o, file, Err(e)) == [] && Exposes(env, blobs, o, o, synced, [])
  {
  }

  lemma NotBoth(env: Env, o: Opened, file: Option<seq<byte>>)
    requires Sound(env) && Matches(env, o.checkpoint, o.log)
    ensures !(OnFile(env, o.checkpoint, file) && Stranded(env, o.log.floor, file))
  {
    hide Sound, NormalForm, LoadCheckpoint, CheckpointBytes;
    if o.checkpoint.Some? && CheckpointBytes(env, o.checkpoint.value).Ok? {
      CheckpointRoundTrip(env, o.checkpoint.value);
    }
  }

  lemma MutationExposes(env: Env, blobs: set<seq<byte>>, o: Opened, r: Record, file: Option<seq<byte>>)
    requires Sound(env) && Settled(env, blobs, o) && o.log.Last().Lt(r.version) && Accepts(env, blobs, o.log, r)
    requires OnFile(env, o.checkpoint, file) || Stranded(env, o.log.floor, file)
    ensures Exposes(env, blobs, o, Taken(o, r), OnFile(env, o.checkpoint, file), AppendTrace(env, o.log, r, file))
  {
    hide Sound, Accepts, OnFile, Stranded, AppendTrace, Reopen, Produced, Storable, Meaning, AllVerified;
    NotBoth(env, o, file);
    forall i | 0 <= i < |AppendTrace(env, o.log, r, file)|
      ensures var trace := AppendTrace(env, o.log, r, file);
              && Produced(env, trace[i])
              && Reopen(env, blobs, trace[i]) ==
                 if OnFile(env, o.checkpoint, file) then Ok(if i == |trace| - 1 then Taken(o, r) else o)
                 else Err(CheckpointFloorMismatch)
    {
      MutationCrash(env, blobs, o, r, file, i);
    }
  }

  lemma AcceptsFrom(env: Env, blobs: set<seq<byte>>, more: set<seq<byte>>, log: Log, r: Record)
    requires Accepts(env, blobs, log, r) && BlobPresent(more, r)
    ensures Accepts(env, more, log, r)
  {
  }

  lemma TakenSettled(env: Env, blobs: set<seq<byte>>, o: Opened, r: Record)
    requires Settled(env, blobs, o) && o.log.Last().Lt(r.version) && Accepts(env, blobs, o.log, r)
    ensures Settled(env, blobs, Taken(o, r))
  {
    hide Matches, Storable, Meaning, Validate, JournalBytes, ApplyRecord, AppendTo;
    MutationApplies(env, blobs, o, r);
  }

  /** Why compact refuses before it writes anything. */
  ghost function CompactFault(env: Env, o: Opened, fence: Result<seq<Version>>, canceled: bool): Option<Error>
    requires Keyed(o.view)
  {
    if o.log.Last().Le(o.log.floor) then Some(CompactionNoProgress)
    else if canceled then Some(Canceled)
    else if fence.Err? then Some(fence.error)
    else FaultOf(CheckpointBytes(env, Folded(o)))
  }

  /**
   * A compaction passes its checks exactly when the tail is above the floor, every configured member has reached it, and the
   * checkpoint fits.
   */
  lemma CompactExactly(env: Env, o: Opened, configured: bool, members: seq<Peer>, book: Book, canceled: bool)
    requires Keyed(o.view)
    ensures var fault := CompactFault(env, o, FenceAt(configured, members, book, o.log.Last()), canceled);
            && (fault.None? <==>
                  && o.log.floor.Lt(o.log.Last()) && !canceled && configured
                  && (forall i :: 0 <= i < |members| ==> o.log.Last().Le(Acknowledged(book, members[i])))
                  && CheckpointBytes(env, Folded(o)).Ok?)
            && (o.log.Last().Le(o.log.floor) ==> fault == Some(CompactionNoProgress))
            && (o.log.floor.Lt(o.log.Last()) && !canceled && !configured ==> fault == Some(MembershipNotConfigured))
            && (&& o.log.floor.Lt(o.log.Last()) && !canceled && configured
                && (exists i :: 0 <= i < |members| && Acknowledged(book, members[i]).Lt(o.log.Last())) ==>
                  fault == Some(MembershipBehind))
  {
    hide CheckpointBytes, SnapshotOf, Keyed;
    NoneBehind(book, members, o.log.Last());
  }

  lemma FenceEvidence(configured: bool, members: seq<Peer>, book: Book, target: Version)
    ensures var f := FenceAt(configured, members, book, target);
            f.Ok? ==> forall i :: 0 <= i < |f.value| ==> target.Le(f.value[i])
  {
    NoneBehind(book, members, target);
  }

  lemma RefusesOrRises(a: Allocator, observed: Version, w: Write)
    requires a.current.epoch != 0
    ensures var (res, a') := NextFrom(a, observed, w);
            && a'.current.epoch != 0
            && (res.Ok? ==> observed.Lt(res.value))
            && (res.Err? ==> res.error != JournalVersionOrder && res.error != Conflict)
  {
    IncrementMeaning(Max(a.current, observed));
  }
}
