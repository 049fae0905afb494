/** Opening a lifecycle directory, whatever its files hold (OpenJournal, LoadCheckpoint, openLifecycleRuntime). */
module Directory {
  import opened Bytes
  import opened Versions
  import opened Outcomes
  import opened Records
  import opened Checkpoints
  import opened Merging
  import opened Codec
  import opened Logs
  import opened Journals

  /** The journal bytes OpenJournal leaves: a header for a new file, a torn tail cut off. */
  function Left(env: Env, data: seq<byte>): seq<byte> {
    if |data| > env.maxJournalBytes then data
    else if data == [] then EncodeHeader(env, Zero)
    else match Parse(env, data)
      case Err(_) => data
      case Ok(p) => if p.truncated && p.size <= |data| then data[..p.size] else data
  }

  /** The directory states OpenJournal passes through. */
  ghost function OpenTrace(env: Env, data: seq<byte>, checkpoint: Option<seq<byte>>): seq<Image> {
    if Left(env, data) == data then []
    else if data == [] then Torn([], EncodeHeader(env, Zero), checkpoint)
    else [Image(Left(env, data), checkpoint)]
  }

  /** A file left behind by an opening, finished or not, opens to the same log; a torn new header is refused. */
  lemma OpenTraceOpens(env: Env, data: seq<byte>, checkpoint: Option<seq<byte>>, i: nat)
    requires HeaderBytes <= env.maxJournalBytes && 0 <= env.maxJournalEntries
    requires i < |OpenTrace(env, data, checkpoint)|
    ensures var img := OpenTrace(env, data, checkpoint)[i];
            && img.checkpoint == checkpoint
            && OpenLog(env, img.journal) ==
               if data == [] && i < HeaderBytes - 1 then Err(JournalCorrupt) else OpenLog(env, data)
  {
    hide ParseFrom, DecodeHeader, EncodeHeader;
    if data == [] {
      TornHeader(env, i + 1);
      assert [] + EncodeHeader(env, Zero)[..i + 1] == EncodeHeader(env, Zero)[..i + 1];
    } else {
      ParseSound(env, data);
    }
  }

  lemma LeftOpens(env: Env, data: seq<byte>)
    requires HeaderBytes <= env.maxJournalBytes && 0 <= env.maxJournalEntries
    ensures OpenLog(env, Left(env, data)) == OpenLog(env, data)
  {
    hide ParseFrom, DecodeHeader;
    if data == [] {
      FreshHeader(env);
    } else if Parse(env, data).Ok? {
      ParseSound(env, data);
    }
  }

  /** OpenJournal: a new file gets its header, a torn tail is cut off. */
  method OpenJournal(env: Env, disk: Disk) returns (res: Result<Log>)
    requires HeaderBytes <= env.maxJournalBytes && 0 <= env.maxJournalEntries
    modifies disk
    ensures res == OpenLog(env, old(disk.journal))
    ensures disk.journal == Left(env, old(disk.journal)) && disk.checkpoint == old(disk.checkpoint)
    ensures disk.trace == old(disk.trace) + OpenTrace(env, old(disk.journal), disk.checkpoint)
  {
    hide ParseFrom, DecodeHeader;
    if |disk.journal| > env.maxJournalBytes {
      return Err(JournalLimit);
    }
    if disk.journal == [] {
      disk.Extend(EncodeHeader(env, Zero));
      assert disk.journal == EncodeHeader(env, Zero);
      return Ok(Log(Zero, []));
    }
    var parsed := ParseJournal(env, disk.journal);
    if parsed.Err? {
      return Err(parsed.error);
    }
    var p := parsed.value;
    ParseSound(env, disk.journal);
    if p.truncated {
      disk.ReplaceJournal(disk.journal[..p.size]);
    }
    res := if |p.log.records| > env.maxJournalEntries then Err(JournalLimit) else Ok(p.log);
  }

  lemma FreshHeader(env: Env)
    requires HeaderBytes <= env.maxJournalBytes && 0 <= env.maxJournalEntries
    ensures OpenLog(env, EncodeHeader(env, Zero)) == Ok(Log(Zero, []))
  {
    HeaderRoundTrip(env, Zero);
    assert EncodeHeader(env, Zero)[..HeaderBytes] == EncodeHeader(env, Zero);
  }

  lemma TornHeader(env: Env, n: nat)
    requires HeaderBytes <= env.maxJournalBytes && 0 <= env.maxJournalEntries && n <= HeaderBytes
    ensures OpenLog(env, EncodeHeader(env, Zero)[..n]) ==
            if n == 0 || n == HeaderBytes then Ok(Log(Zero, [])) else Err(JournalCorrupt)
  {
    FreshHeader(env);
    assert EncodeHeader(env, Zero)[..HeaderBytes] == EncodeHeader(env, Zero);
  }

  method ReadCheckpoint(env: Env, data: seq<byte>) returns (res: Result<Checkpoint>)
    ensures res == LoadCheckpoint(env, data)
  {
    if |data| > env.limits.maxCheckpointBytes {
      return Err(CheckpointTooLarge);
    }
    var payload := OpenEnvelope(env, data, env.limits.maxCheckpointBytes, CheckpointCorrupt, CheckpointChecksum);
    if payload.Err? {
      return Err(payload.error);
    }
    var c := env.decodeCheckpoint(payload.value);
    if c.None? {
      return Err(CheckpointCorrupt);
    }
    res := NormalizeCheckpoint(env, c.value);
  }

  /** verifyLifecycleRecords */
  method VerifyRecords(blobs: set<seq<byte>>, rs: seq<Record>) returns (ok: bool)
    ensures ok <==> Verified(blobs, rs)
  {
    for i := 0 to |rs|
      invariant Verified(blobs, rs[..i])
    {
      if rs[i].state.Present? && rs[i].blobKey !in blobs {
        return false;
      }
      assert rs[..i + 1] == rs[..i] + [rs[i]];
    }
    assert rs[..|rs|] == rs;
    return true;
  }

  /** Restores the checkpoint, then replays the journal record by record, verifying each record's blob first. */
  method RestoreView(env: Env, blobs: set<seq<byte>>, checkpoint: Option<Checkpoint>, log: Log) returns (res: Result<Opened>)
    ensures res == Rebuild(env, blobs, checkpoint, log)
  {
    hide ReplayAll, ApplyAll;
    var base: View := if checkpoint.None? then map[] else ViewOf(checkpoint.value.records);
    var rs := log.records;
    var view := base;
    assert ReplayAll(env, blobs, base, rs[..0]) == Ok(view) && rs[..|rs|] == rs by {
      ReplayNothing(env, blobs, base);
    }
    for i := 0 to |rs|
      invariant ReplayAll(env, blobs, base, rs[..i]) == Ok(view)
    {
      ReplayOneMore(env, blobs, base, rs, i);
      if rs[i].state.Present? && rs[i].blobKey !in blobs {
        return Err(BlobMissing);
      }
      var fault := Validate(env, rs[i]);
      var outcome := if fault.Some? then Err(fault.value) else Classify(rs[i], Lookup(view, KeyOf(rs[i])));
      if outcome.Err? {
        return Err(outcome.error);
      }
      view := Merge(view, rs[i]);
    }
    res := Ok(Opened(log, checkpoint, view));
  }

  lemma ReplayNothing(env: Env, blobs: set<seq<byte>>, v: View)
    ensures ReplayAll(env, blobs, v, []) == Ok(v)
  {
  }

  /** One more record is replayed or refused; a refusal is the outcome for the whole list. */
  lemma ReplayOneMore(env: Env, blobs: set<seq<byte>>, v: View, rs: seq<Record>, i: nat)
    requires i < |rs| && ReplayAll(env, blobs, v, rs[..i]).Ok?
    ensures var before := ReplayAll(env, blobs, v, rs[..i]).value;
            if !BlobPresent(blobs, rs[i]) then ReplayAll(env, blobs, v, rs) == Err(BlobMissing)
            else match ApplyOne(env, before, rs[i])
              case Err(x) => ReplayAll(env, blobs, v, rs) == Err(x)
              case Ok(w) => ReplayAll(env, blobs, v, rs[..i + 1]) == Ok(w)
  {
    hide ApplyOne;
    assert rs[..i + 1][..i] == rs[..i];
    ReplayPrefix(env, blobs, v, rs, i + 1);
  }

  lemma {:induction false} ReplayPrefix(env: Env, blobs: set<seq<byte>>, v: View, rs: seq<Record>, n: nat)
    requires n <= |rs|
    ensures ReplayAll(env, blobs, v, rs[..n]).Err? ==> ReplayAll(env, blobs, v, rs) == ReplayAll(env, blobs, v, rs[..n])
  {
    hide ApplyAll;
    if n == |rs| {
      assert rs[..n] == rs;
    } else {
      ReplayPrefix(env, blobs, v, rs[..|rs| - 1], n);
      assert rs[..|rs| - 1][..n] == rs[..n];
    }
  }

  /**
   * The journal and checkpoint part of openLifecycleRuntime, for any bytes at all. Opening is repeatable: a
   * directory that opened opens again to the same state, also after a crash while it was being opened.
   */
  method OpenDirectory(env: Env, disk: Disk, blobs: set<seq<byte>>) returns (res: Result<Opened>)
    requires HeaderBytes <= env.maxJournalBytes && 0 <= env.maxJournalEntries
    modifies disk
    ensures res == Reopen(env, blobs, old(disk.Now()))
    ensures Reopen(env, blobs, disk.Now()) == res
    ensures disk.Now() == Image(Left(env, old(disk.journal)), old(disk.checkpoint))
    ensures disk.trace == old(disk.trace) + OpenTrace(env, old(disk.journal), disk.checkpoint)
  {
    hide OpenLog, Restore, Left;
    LeftOpens(env, disk.journal);
    var journal := OpenJournal(env, disk);
    if journal.Err? {
      return Err(journal.error);
    }
    res := RestoreDirectory(env, blobs, disk.checkpoint, journal.value);
  }

  /** The checkpoint part of openLifecycleRuntime, and the replay. */
  method RestoreDirectory(env: Env, blobs: set<seq<byte>>, file: Option<seq<byte>>, log: Log) returns (res: Result<Opened>)
    ensures res == Restore(env, blobs, file, log)
  {
    hide LoadCheckpoint, Rebuild;
    if file.None? {
      if !log.floor.IsZero() {
        return Err(CheckpointRequired);
      }
      res := RestoreView(env, blobs, None, log);
      return;
    }
    var c := ReadCheckpoint(env, file.value);
    if c.Err? {
      return Err(c.error);
    }
    if c.value.watermark != log.floor {
      return Err(CheckpointFloorMismatch);
    }
    var verified := VerifyRecords(blobs, c.value.records);
    if !verified {
      return Err(BlobMissing);
    }
    res := RestoreView(env, blobs, Some(c.value), log);
  }

  /** A crash while a directory is being opened leaves one that opens to the same state, or a torn new header. */
  lemma OpeningCrash(env: Env, blobs: set<seq<byte>>, img: Image, i: nat)
    requires HeaderBytes <= env.maxJournalBytes && 0 <= env.maxJournalEntries
    requires i < |OpenTrace(env, img.journal, img.checkpoint)|
    ensures Reopen(env, blobs, OpenTrace(env, img.journal, img.checkpoint)[i]) ==
            if img.journal == [] && i < HeaderBytes - 1 then Err(JournalCorrupt) else Reopen(env, blobs, img)
  {
    hide OpenLog, OpenTrace, Restore;
    OpenTraceOpens(env, img.journal, img.checkpoint, i);
  }

  /** Whatever bytes the directory holds, what it opens to is consistent: store, checkpoint, journal and blobs agree. */
  lemma OpenedIsConsistent(env: Env, blobs: set<seq<byte>>, image: Image)
    requires Reopen(env, blobs, image).Ok?
    ensures var o := Reopen(env, blobs, image).value;
            && WellFormed(env, o.log) && Matches(env, o.checkpoint, o.log)
            && o.view == Meaning(o.checkpoint, o.log) && AllVerified(blobs, o.checkpoint, o.log)
  {
    hide Parse, NormalForm, AllValid, Validate, Increasing;
    if image.journal != [] {
      ParseSound(env, image.journal);
    }
    var o := Reopen(env, blobs, image).value;
    if image.checkpoint.Some? {
      LoadedIsNormal(env, image.checkpoint.value);
    }
    assert WellFormed(env, o.log) by {
      EmptyLog(env);
    }
    BaseView(env, o.checkpoint, o.log);
    ReplayAccepts(env, Meaning(o.checkpoint, Log(o.log.floor, [])), o.log.floor, o.log.records);
    ReplayAllMeaning(env, blobs, Meaning(o.checkpoint, Log(o.log.floor, [])), o.log.records);
  }

  lemma EmptyLog(env: Env)
    ensures WellFormed(env, Log(Zero, []))
  {
  }

  lemma LoadedIsNormal(env: Env, data: seq<byte>)
    requires LoadCheckpoint(env, data).Ok?
    ensures NormalForm(env, LoadCheckpoint(env, data).value)
  {
    var payload := OpenEnvelope(env, data, env.limits.maxCheckpointBytes, CheckpointCorrupt, CheckpointChecksum).value;
    NormalizeOk(env, env.decodeCheckpoint(payload).value);
  }

  /** A journal the program wrote, torn anywhere after its header, is cut back to a journal it could have written. */
  lemma RecoveredIsWritten(env: Env, log: Log, n: nat)
    requires Sound(env) && WellFormed(env, log) && HeaderBytes <= n <= |JournalBytes(env, log)|
    ensures match Parse(env, JournalBytes(env, log)[..n])
            case Err(_) => false
            case Ok(p) =>
              && p.size <= n && JournalBytes(env, log)[..n][..p.size] == JournalBytes(env, p.log)
              && p.log.floor == log.floor && p.log.records <= log.records
  {
    TornTail(env, log, n);
    var k := Whole(env, log.records, n);
    EntriesPrefix(env, log.records, k);
    var size := Boundary(env, log.records, k);
    assert JournalBytes(env, log)[..n][..size] == JournalBytes(env, log)[..size];
  }

  // ---- directories this program writes ----

  /** The checkpoint file is one the program wrote. */
  ghost predicate WrittenCheckpoint(env: Env, file: Option<seq<byte>>) {
    file.Some? ==>
      LoadCheckpoint(env, file.value).Ok? && CheckpointBytes(env, LoadCheckpoint(env, file.value).value) == Ok(file.value)
  }

  /** The files are ones the program wrote, the journal possibly torn in the middle of a write. */
  ghost predicate Produced(env: Env, img: Image) {
    && WrittenCheckpoint(env, img.checkpoint)
    && exists log :: Storable(env, log) && img.journal <= JournalBytes(env, log)
  }

  /** Opening a journal the program wrote, whole or torn, leaves one that it could have written. */
  lemma ProducedJournal(env: Env, data: seq<byte>, written: Log)
    requires Sound(env) && HeaderBytes <= env.maxJournalBytes && 0 <= env.maxJournalEntries
    requires Storable(env, written) && data <= JournalBytes(env, written) && OpenLog(env, data).Ok?
    ensures var log := OpenLog(env, data).value; Storable(env, log) && Left(env, data) == JournalBytes(env, log)
  {
    hide ParseFrom, DecodeHeader, Sound, AllValid;
    if data == [] {
      FreshLog(env);
    } else {
      var n := |data|;
      assert JournalBytes(env, written)[..n] == data;
      RecoveredIsWritten(env, written, n);
      TornLog(env, data);
    }
  }

  lemma FreshLog(env: Env)
    requires HeaderBytes <= env.maxJournalBytes && 0 <= env.maxJournalEntries
    ensures Storable(env, Log(Zero, [])) && JournalBytes(env, Log(Zero, [])) == EncodeHeader(env, Zero)
  {
  }

  lemma TornLog(env: Env, data: seq<byte>)
    requires data != [] && OpenLog(env, data).Ok? && Parse(env, data).Ok?
    requires var p := Parse(env, data).value; p.size <= |data| && data[..p.size] == JournalBytes(env, p.log)
    ensures Storable(env, Parse(env, data).value.log) && OpenLog(env, data) == Ok(Parse(env, data).value.log)
    ensures Left(env, data) == JournalBytes(env, Parse(env, data).value.log)
  {
    hide Parse, WellFormed;
    ParseSound(env, data);
  }

  /** A directory the program wrote, crashed into at any point, opens only to a state whose files are in step with it. */
  lemma ProducedOpens(env: Env, blobs: set<seq<byte>>, img: Image)
    requires Sound(env) && HeaderBytes <= env.maxJournalBytes && 0 <= env.maxJournalEntries
    requires Produced(env, img) && Reopen(env, blobs, img).Ok?
    ensures var o := Reopen(env, blobs, img).value;
            && Stored(env, Image(Left(env, img.journal), img.checkpoint), o.checkpoint, o.log)
            && o.view == Meaning(o.checkpoint, o.log) && AllVerified(blobs, o.checkpoint, o.log)
  {
    hide OpenLog, Storable, JournalBytes, Left, LoadCheckpoint, CheckpointBytes, Sound, Matches, Meaning, WellFormed;
    var written :| Storable(env, written) && img.journal <= JournalBytes(env, written);
    ProducedJournal(env, img.journal, written);
    OpenedIsConsistent(env, blobs, img);
  }
}
