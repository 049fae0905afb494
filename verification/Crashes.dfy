/** Crash atomicity: what each directory state inside Append, Compact and InstallSnapshot reopens to. */
module Crashes {
  import opened Orders
  import opened Bytes
  import opened Versions
  import opened Outcomes
  import opened Records
  import opened Checkpoints
  import opened Merging
  import opened Codec
  import opened Logs

  lemma {:induction false} MergedFrom(v: View, rs: seq<Record>)
    ensures forall k :: k in MergeAll(v, rs) ==> (k in v && MergeAll(v, rs)[k] == v[k]) || MergeAll(v, rs)[k] in rs
  {
    if rs != [] {
      MergedFrom(v, rs[..|rs| - 1]);
    }
  }

  /** Compaction refers to no blob the base and the journal did not refer to. */
  lemma CompactionVerified(env: Env, blobs: set<seq<byte>>, checkpoint: Option<Checkpoint>, log: Log, n: nat, rs: seq<Record>)
    requires AllVerified(blobs, checkpoint, log) && n <= |log.records|
    requires Keyed(Meaning(checkpoint, Log(log.floor, log.records[..n])))
    requires rs == SnapshotOf(Meaning(checkpoint, Log(log.floor, log.records[..n])))
    ensures Verified(blobs, rs) && Verified(blobs, log.records[n..])
  {
    var base := Meaning(checkpoint, Log(log.floor, []));
    var mid := MergeAll(base, log.records[..n]);
    MergedFrom(base, log.records[..n]);
    if checkpoint.Some? {
      ViewOfKeys(checkpoint.value.records);
    }
    forall i | 0 <= i < |rs| && rs[i].state.Present? ensures rs[i].blobKey in blobs {
      assert rs[i] in rs;
      var k := KeyOf(rs[i]);
      assert mid[k] == rs[i];
    }
  }

  lemma CompactionKeepsBlobs(env: Env, blobs: set<seq<byte>>, checkpoint: Option<Checkpoint>, log: Log, q: CompactionRequest)
    requires Matches(env, checkpoint, log) && WellFormed(env, log) && q.base == checkpoint
    requires AllVerified(blobs, checkpoint, log) && CompactTo(env, log, q).Ok?
    ensures var (c, log') := CompactTo(env, log, q).value; AllVerified(blobs, Some(c), log')
  {
    var n := Cut(log.records, q.watermark);
    CompactionOutput(env, checkpoint, log, q);
    CompactionVerified(env, blobs, checkpoint, log, n, CompactTo(env, log, q).value.0.records);
  }

  /**
   * Compact: between the two renames the directory refuses to open; after the second it opens to the
   * same store and last version as before, with the journal floor at the watermark.
   */
  lemma CompactionCrash(env: Env, blobs: set<seq<byte>>, checkpoint: Option<Checkpoint>, log: Log, q: CompactionRequest)
    requires Sound(env) && Matches(env, checkpoint, log) && Storable(env, log) && q.base == checkpoint
    requires AllVerified(blobs, checkpoint, log) && CompactTo(env, log, q).Ok?
    ensures var (c, log') := CompactTo(env, log, q).value;
            && CheckpointBytes(env, c).Ok?
            && var file := Some(CheckpointBytes(env, c).value);
            && Reopen(env, blobs, Image(JournalBytes(env, log), file)) == Err(CheckpointFloorMismatch)
            && Stored(env, Image(JournalBytes(env, log'), file), Some(c), log')
            && AllVerified(blobs, Some(c), log')
            && log'.Last() == log.Last()
            && Reopen(env, blobs, Image(JournalBytes(env, log'), file)) == Ok(Opened(log', Some(c), Meaning(checkpoint, log)))
  {
    MatchedCompaction(env, checkpoint, log, q);
    CompactionKeepsBlobs(env, blobs, checkpoint, log, q);
    var (c, log') := CompactTo(env, log, q).value;
    ReopenStored(env, blobs, Image(JournalBytes(env, log'), Some(CheckpointBytes(env, c).value)), Some(c), log');
    WindowRefused(env, blobs, log, c);
  }

  /** A checkpoint beside a journal with another floor is refused. */
  lemma WindowRefused(env: Env, blobs: set<seq<byte>>, log: Log, c: Checkpoint)
    requires Sound(env) && Storable(env, log) && NormalForm(env, c) && CheckpointBytes(env, c).Ok?
    requires c.watermark != log.floor
    ensures Reopen(env, blobs, Image(JournalBytes(env, log), Some(CheckpointBytes(env, c).value)))
         == Err(CheckpointFloorMismatch)
  {
    CheckpointRoundTrip(env, c);
    OpenLogRoundTrip(env, log);
  }

  /**
   * InstallSnapshot: between the renames the directory refuses to open unless the snapshot sits exactly
   * at the journal's floor, in which case the journal is empty and it already opens to the new state.
   */
  lemma InstallCrash(env: Env, blobs: set<seq<byte>>, log: Log, c: Checkpoint)
    requires Sound(env) && Storable(env, log) && InstallTo(env, log, c).Ok?
    requires Verified(blobs, InstallTo(env, log, c).value.0.records)
    ensures var (n, log') := InstallTo(env, log, c).value;
            && CheckpointBytes(env, n).Ok?
            && var file := Some(CheckpointBytes(env, n).value);
            && Stored(env, Image(JournalBytes(env, log'), file), Some(n), log')
            && Reopen(env, blobs, Image(JournalBytes(env, log'), file)) == Ok(Opened(log', Some(n), ViewOf(n.records)))
            && Reopen(env, blobs, Image(JournalBytes(env, log), file)) ==
               if c.watermark == log.floor then Ok(Opened(log', Some(n), ViewOf(n.records)))
               else Err(CheckpointFloorMismatch)
  {
    InstallStorable(env, log, c);
    var (n, log') := InstallTo(env, log, c).value;
    var file := Some(CheckpointBytes(env, n).value);
    ReopenStored(env, blobs, Image(JournalBytes(env, log'), file), Some(n), log');
    if c.watermark == log.floor {
      NothingAboveFloor(log);
      assert log == log';
    } else {
      WindowRefused(env, blobs, log, n);
    }
  }

  lemma NothingAboveFloor(log: Log)
    requires Increasing(log.floor, log.records) && log.Last().Le(log.floor)
    ensures log.records == []
  {
  }
}
