/** Opening a node: every file of its directory, in order (openLifecycleRuntime). */
module Startup {
  import opened Bytes
  import opened Versions
  import opened Outcomes
  import opened Records
  import opened Checkpoints
  import opened Merging
  import opened Codec
  import opened Logs
  import opened Journals
  import opened Directory
  import opened Applying
  import opened Authority
  import opened Watermarks
  import opened Membership
  import opened Runtime

  /** The small state files beside journal and checkpoint. */
  datatype Files = Files(authority: Option<Version>, watermarks: Option<seq<byte>>, membership: Option<seq<byte>>)

  /**
   * members is the list given on the command line, if any; epoch the random epoch for a new authority; w and replaced
   * how the writes of the authority and the membership file end.
   */
  datatype Launch = Launch(authorityID: seq<byte>, members: Option<seq<Peer>>, epoch: u64, w: Write, replaced: Write)

  function Or(first: Option<Error>, second: Option<Error>): Option<Error> {
    if first.Some? then first else second
  }

  /** Why a directory whose journal opened to log stops opening before its checkpoint is read. */
  function PartsFault(be: BookEnv, me: MemberEnv, files: Files, launch: Launch, log: Log): Option<Error> {
    Or(FaultOf(OpenFrom(files.authority, log.Last(), launch.epoch, launch.w).0),
       Or(FaultOf(OpenBook(be, files.watermarks)),
          Or(FaultOf(OpenMembers(me, files.membership)),
             if launch.members.Some? then ReplaceFault(me, launch.members.value, launch.replaced) else None)))
  }

  /** The parts open exactly when authority, watermarks, membership and the given member list all do; the first that does not is reported. */
  lemma PartsExactly(be: BookEnv, me: MemberEnv, files: Files, launch: Launch, log: Log)
    ensures var authority := OpenFrom(files.authority, log.Last(), launch.epoch, launch.w).0;
            var book, members := OpenBook(be, files.watermarks), OpenMembers(me, files.membership);
            var replaced := if launch.members.Some? then ReplaceFault(me, launch.members.value, launch.replaced) else None;
            var fault := PartsFault(be, me, files, launch, log);
            && (fault.None? <==> authority.Ok? && book.Ok? && members.Ok? && replaced.None?)
            && (authority.Err? ==> fault == Some(authority.error))
            && (authority.Ok? && book.Err? ==> fault == Some(book.error))
            && (authority.Ok? && book.Ok? && members.Err? ==> fault == Some(members.error))
            && (authority.Ok? && book.Ok? && members.Ok? ==> fault == replaced)
  {
    hide OpenFrom, OpenBook, OpenMembers, ReplaceFault;
  }

  /** The first refusal in the order the files are opened. */
  ghost function OpenFault(env: Env, blobs: set<seq<byte>>, img: Image, be: BookEnv, me: MemberEnv, files: Files, launch: Launch)
      : Option<Error>
  {
    match OpenLog(env, img.journal)
    case Err(e) => Some(e)
    case Ok(log) => Or(PartsFault(be, me, files, launch, log), FaultOf(Restore(env, blobs, img.checkpoint, log)))
  }

  lemma OpenFaultMeaning(env: Env, blobs: set<seq<byte>>, img: Image, be: BookEnv, me: MemberEnv, files: Files, launch: Launch)
    ensures OpenFault(env, blobs, img, be, me, files, launch).None? <==>
            && Reopen(env, blobs, img).Ok?
            && PartsFault(be, me, files, launch, Reopen(env, blobs, img).value.log).None?
  {
    hide OpenLog, LoadCheckpoint, ReplayAll, PartsFault;
  }

  /** The parts that have their own files. */
  method OpenParts(be: BookEnv, me: MemberEnv, files: Files, launch: Launch, log: Log)
      returns (err: Option<Error>, authority: VersionAuthority?, book: WatermarkBook?, membership: MembershipBook?)
    requires SoundBook(be) && SoundMembers(me)
    ensures err == PartsFault(be, me, files, launch, log)
    ensures err.None? ==>
              && authority != null && book != null && membership != null && fresh(authority) && fresh(book) && fresh(membership)
              && authority.current.epoch != 0 && book.Valid() && membership.Valid() && book.be == be && membership.me == me
              && (Ok(authority.current), authority.file) == OpenFrom(files.authority, log.Last(), launch.epoch, launch.w)
              && Ok(book.watermarks) == OpenBook(be, files.watermarks) && book.file == files.watermarks
              && (launch.members.None? ==> membership.file == files.membership)
              && (launch.members.Some? ==> membership.configured && membership.members == SortedMembers(launch.members.value))
  {
    hide OpenBook, OpenMembers, ReplaceFault, SoundBook, SoundMembers, BookFault, SortedMembers;
    authority, book, membership := null, null, null;
    var (version, file) := OpenFrom(files.authority, log.Last(), launch.epoch, launch.w);
    if version.Err? {
      return Some(version.error), null, null, null;
    }
    authority := new VersionAuthority(file, version.value);
    var watermarks := OpenBook(be, files.watermarks);
    if watermarks.Err? {
      return Some(watermarks.error), null, null, null;
    }
    book := new WatermarkBook(be, files.watermarks);
    var members := OpenMembers(me, files.membership);
    if members.Err? {
      return Some(members.error), null, null, null;
    }
    membership := new MembershipBook(me, files.membership);
    if launch.members.Some? {
      err := membership.Replace(launch.members.value, launch.replaced);
      return;
    }
    err := None;
  }

  /**
   * openLifecycleRuntime, for any bytes at all: it refuses with the first fault of its files, and otherwise runs with
   * exactly the state the directory holds. On a directory this program wrote, crashed into at any point, the runtime it
   * returns is valid and in step with its files, so putting, deleting, compacting, crashing and opening can go on forever.
   */
  method OpenRuntime(
    env: Env, disk: Disk, blobs: map<seq<byte>, seq<byte>>, be: BookEnv, me: MemberEnv, files: Files, launch: Launch)
    returns (res: Result<LifecycleRuntime>)
    requires HeaderBytes <= env.maxJournalBytes && 0 <= env.maxJournalEntries && SoundBook(be) && SoundMembers(me)
    modifies disk
    ensures disk.Now() == Image(Left(env, old(disk.journal)), old(disk.checkpoint))
    ensures disk.trace == old(disk.trace) + OpenTrace(env, old(disk.journal), disk.checkpoint)
    ensures FaultOf(res) == OpenFault(env, Intact(env, blobs), old(disk.Now()), be, me, files, launch)
    ensures res.Ok? ==>
              && fresh(res.value) && res.value.env == env && res.value.journal.disk == disk && res.value.applier.blobs == blobs
              && Ok(res.value.State()) == Reopen(env, Intact(env, blobs), old(disk.Now()))
              && Ok(res.value.book.watermarks) == OpenBook(be, files.watermarks)
              && (Ok(res.value.authority.current), res.value.authority.file) ==
                 OpenFrom(files.authority, res.value.State().log.Last(), launch.epoch, launch.w)
              && (launch.members.None? ==> res.value.membership.file == files.membership)
              && (launch.members.Some? ==>
                    res.value.membership.configured && res.value.membership.members == SortedMembers(launch.members.value))
    ensures res.Ok? && Sound(env) && Produced(env, old(disk.Now())) ==> res.value.Valid() && res.value.Synced()
  {
    hide OpenLog, Restore, Left, OpenBook, OpenMembers, PartsFault, Produced, Sound, Storable, Matches, Meaning, AllVerified, CheckpointBytes,
      JournalBytes, SoundBook, SoundMembers, BookFault, OpenFrom, OpenTrace, Stranded, OnFile, Keyed;
    ghost var image := disk.Now();
    LeftOpens(env, disk.journal);
    var journal := OpenJournal(env, disk);
    if journal.Err? {
      return Err(journal.error);
    }
    var log := journal.value;
    var fault, authority, book, membership := OpenParts(be, me, files, launch, log);
    if fault.Some? {
      return Err(fault.value);
    }
    var restored := RestoreDirectory(env, Intact(env, blobs), disk.checkpoint, log);
    if restored.Err? {
      return Err(restored.error);
    }
    var o := restored.value;
    RestoredLog(env, Intact(env, blobs), disk.checkpoint, log);
    if Sound(env) && Produced(env, image) {
      ProducedOpens(env, Intact(env, blobs), image);
      StoredFiles(env, disk.Now(), o);
    }
    var runtime := Assemble(env, disk, blobs, o, launch.authorityID, authority, book, membership);
    res := Ok(runtime);
  }

  /** The runtime around its parts. */
  method Assemble(
    env: Env, disk: Disk, blobs: map<seq<byte>, seq<byte>>, o: Opened, authorityID: seq<byte>,
    authority: VersionAuthority, book: WatermarkBook, membership: MembershipBook)
    returns (runtime: LifecycleRuntime)
    ensures fresh(runtime) && runtime.env == env && runtime.journal.disk == disk && runtime.applier.blobs == blobs
    ensures runtime.State() == o && runtime.authority == authority && runtime.book == book && runtime.membership == membership
    ensures && Sound(env) && Settled(env, Intact(env, blobs), o) && Keyed(o.view) && disk.journal == JournalBytes(env, o.log)
            && OnFile(env, o.checkpoint, disk.checkpoint) && authority.current.epoch != 0 && book.Valid() && membership.Valid() ==>
              runtime.Valid() && runtime.Synced()
  {
    hide Sound, Storable, Matches, Meaning, AllVerified, CheckpointBytes, JournalBytes, SoundBook, SoundMembers, BookFault, OpenBook,
      OpenMembers, Stranded, OnFile, Keyed;
    var journal := new Journal(env, disk, o.log);
    var store := new Store(env);
    store.records := o.view;
    var applier := new Applier(store, journal, blobs);
    runtime := new LifecycleRuntime(env, authorityID, journal, store, applier, authority, book, membership, o.checkpoint);
  }

  /** The blobs that read back and match their key. */
  function Intact(env: Env, blobs: map<seq<byte>, seq<byte>>): (keys: set<seq<byte>>)
    ensures forall k :: k in keys <==> k in blobs && env.digest(blobs[k]) == k
  {
    set k | k in blobs && env.digest(blobs[k]) == k
  }

  lemma RestoredLog(env: Env, blobs: set<seq<byte>>, file: Option<seq<byte>>, log: Log)
    requires Restore(env, blobs, file, log).Ok?
    ensures Restore(env, blobs, file, log).value.log == log
  {
    hide LoadCheckpoint, ReplayAll;
  }

  lemma StoredFiles(env: Env, img: Image, o: Opened)
    requires Stored(env, img, o.checkpoint, o.log) && o.view == Meaning(o.checkpoint, o.log)
    ensures Matches(env, o.checkpoint, o.log) && Storable(env, o.log) && img.journal == JournalBytes(env, o.log)
    ensures OnFile(env, o.checkpoint, img.checkpoint) && Keyed(o.view)
  {
    MeaningBounded(env, o.checkpoint, o.log);
  }
}
