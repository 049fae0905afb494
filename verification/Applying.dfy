/** Making one transition durable: blob, journal, then logical view (apply.go). */
module Applying {
  import opened Bytes
  import opened Versions
  import opened Outcomes
  import opened Records
  import opened Checkpoints
  import opened Merging
  import opened Codec
  import opened Logs
  import opened Journals

  datatype Replica = Replica(log: Log, view: View)

  /** Applier.Apply of a received record: the blob must already be present and verified. */
  function ApplyRecord(env: Env, blobs: set<seq<byte>>, p: Replica, r: Record): Result<(Replica, ApplyResult)> {
    match Validate(env, r)
    case Some(e) => Err(e)
    case None =>
      match Classify(r, Lookup(p.view, KeyOf(r)))
      case Err(e) => Err(e)
      case Ok(res) =>
        if !res.outcome.Applied? then Ok((p, res))
        else if r.state.Present? && r.blobKey !in blobs then Err(BlobMissing)
        else match AppendTo(env, p.log, r)
          case Err(e) => Err(e)
          case Ok(log') => Ok((Replica(log', p.view[KeyOf(r) := r]), res))
  }

  /**
   * What a received record does: a newer one needs its blob, a version above the tail and room, and is then appended and
   * published; an older or repeated one changes nothing, blob or not; another body under the same version is a conflict.
   */
  lemma ApplyExactly(env: Env, blobs: set<seq<byte>>, p: Replica, r: Record)
    ensures !Valid(env, r) ==> ApplyRecord(env, blobs, p, r) == Err(Validate(env, r).value)
    ensures Valid(env, r) ==>
              var k, res := KeyOf(r), ApplyRecord(env, blobs, p, r);
              if k in p.view && r.version.Lt(p.view[k].version) then res == Ok((p, ApplyResult(Stale, p.view[k].version)))
              else if k in p.view && r.version == p.view[k].version then
                if r.state == p.view[k].state && r.blobKey == p.view[k].blobKey && r.authorityID == p.view[k].authorityID
                then res == Ok((p, ApplyResult(Duplicate, r.version))) else res == Err(Conflict)
              else if r.state.Present? && r.blobKey !in blobs then res == Err(BlobMissing)
              else if r.version.Le(p.log.Last()) then res == Err(JournalVersionOrder)
              else if !(&& |p.log.records| < env.maxJournalEntries
                        && |JournalBytes(env, p.log)| + |env.encode(r)| + 8 <= env.maxJournalBytes) then res == Err(JournalLimit)
              else res == Ok((Replica(Log(p.log.floor, p.log.records + [r]), p.view[k := r]), ApplyResult(Applied, r.version)))
  {
    hide Validate, JournalBytes;
  }

  /** A snapshot is applied exactly when it can be installed and its blobs are there; what is left is its key order and an empty journal. */
  lemma ApplySnapshotExactly(env: Env, blobs: set<seq<byte>>, log: Log, c: Checkpoint)
    ensures var res := ApplySnapshotTo(env, blobs, log, c);
            && (res.Ok? <==>
                  && Listable(env, c) && (forall r :: r in Listed(c).records && r.state.Present? ==> r.blobKey in blobs)
                  && log.Last().Le(c.watermark) && CheckpointBytes(env, Listed(c)).Ok?)
            && (res.Ok? ==> res.value == (Listed(c), Log(c.watermark, [])))
            && (Listable(env, c) && (exists r :: r in Listed(c).records && r.state.Present? && r.blobKey !in blobs) ==>
                  res == Err(BlobMissing))
  {
    hide Normalize, CheckpointBytes, Listable, SnapshotOf, InstallTo;
    NormalizeExactly(env, c);
    if Listable(env, c) {
      ListedAgain(env, c);
      InstallExactly(env, log, Listed(c));
    }
  }

  lemma ListedAgain(env: Env, c: Checkpoint)
    requires Listable(env, c)
    ensures Listable(env, Listed(c)) && Listed(Listed(c)) == Listed(c) && Listed(c).watermark == c.watermark
  {
    hide SnapshotOf, FirstFault;
    NormalizeExactly(env, c);
    NormalizeMeaning(env, c);
    NormalizeMeaning(env, Listed(c));
    NormalizeExactly(env, Listed(c));
  }

  /** Applier.ApplySnapshot: the checkpoint to install and the journal it leaves. */
  ghost function ApplySnapshotTo(env: Env, blobs: set<seq<byte>>, log: Log, c: Checkpoint): Result<(Checkpoint, Log)> {
    match Normalize(env, c)
    case Err(e) => Err(e)
    case Ok(n) => if !Verified(blobs, n.records) then Err(BlobMissing) else InstallTo(env, log, n)
  }

  lemma ApplySnapshotInstalls(env: Env, blobs: set<seq<byte>>, log: Log, c: Checkpoint)
    requires HeaderBytes <= env.maxJournalBytes && 0 <= env.maxJournalEntries
    requires ApplySnapshotTo(env, blobs, log, c).Ok?
    ensures var (n, log') := ApplySnapshotTo(env, blobs, log, c).value;
            && Ok(n) == Normalize(env, c)
            && NormalForm(env, n) && n.watermark == c.watermark && ViewOf(n.records) == ViewOf(c.records)
            && Verified(blobs, n.records) && DistinctKeys(n.records) && AllValid(env, n.records)
            && log' == Log(c.watermark, []) && log.Last().Le(c.watermark)
            && Matches(env, Some(n), log') && Storable(env, log') && CheckpointBytes(env, n).Ok?
  {
    NormalizeOk(env, c);
    var n := Normalize(env, c).value;
    NormalizeMeaning(env, n);
    NormalFormIsSnapshot(env, n);
    InstallStorable(env, log, n);
  }

  /** The error an Apply call reports: a blob that is there but damaged is told apart from a missing one. */
  predicate Reported(modelled: Error, e: Error) {
    e == modelled || (modelled.BlobMissing? && e.BlobMismatch?)
  }

  class Applier {
    const env: Env
    const store: Store
    const journal: Journal
    var blobs: map<seq<byte>, seq<byte>>

    constructor (store: Store, journal: Journal, blobs: map<seq<byte>, seq<byte>>)
      requires store.env == journal.env
      ensures this.store == store && this.journal == journal && this.env == journal.env && this.blobs == blobs
    {
      this.env, this.store, this.journal, this.blobs := journal.env, store, journal, blobs;
    }

    /** The blobs that read back and match their key. */
    ghost function Sealed(): set<seq<byte>>
      reads this
    {
      set k | k in blobs && env.digest(blobs[k]) == k
    }

    ghost function Current(): Replica
      reads this, store, journal
    {
      Replica(journal.Contents(), store.records)
    }

    ghost predicate Valid()
      reads this, store, journal, journal.disk
    {
      store.env == env && journal.env == env && journal.Valid() && Keyed(store.records)
    }

    /** ensureBlob; a supplied blob is verified and stored first. */
    method EnsureBlob(key: seq<byte>, supplied: Option<seq<byte>>) returns (err: Option<Error>)
      modifies this`blobs
      ensures supplied.None? ==> blobs == old(blobs) && (err.None? <==> key in Sealed())
      ensures supplied.Some? ==>
                && (err.None? <==> env.digest(supplied.value) == key)
                && blobs == if err.None? then old(blobs)[key := supplied.value] else old(blobs)
      ensures supplied.None? ==>
                err == if key !in blobs then Some(BlobMissing) else if env.digest(blobs[key]) != key then Some(BlobMismatch) else None
      ensures err.Some? ==> err.value.BlobMissing? || err.value.BlobMismatch?
    {
      if supplied.Some? {
        if env.digest(supplied.value) != key {
          return Some(BlobMismatch);
        }
        blobs := blobs[key := supplied.value];
        return None;
      }
      err := CheckBlob(key);
    }

    /** ensureBlob without a supplied blob. */
    method CheckBlob(key: seq<byte>) returns (err: Option<Error>)
      ensures (err.None? <==> key in Sealed()) && (err.Some? ==> err.value.BlobMissing? || err.value.BlobMismatch?)
      ensures err == if key !in blobs then Some(BlobMissing) else if env.digest(blobs[key]) != key then Some(BlobMismatch) else None
    {
      if key !in blobs {
        return Some(BlobMissing);
      }
      err := if env.digest(blobs[key]) != key then Some(BlobMismatch) else None;
    }

    method CheckBlobs(rs: seq<Record>) returns (err: Option<Error>)
      ensures (err.None? <==> Verified(Sealed(), rs)) && (err.Some? ==> err.value.BlobMissing? || err.value.BlobMismatch?)
    {
      for i := 0 to |rs|
        invariant forall k :: 0 <= k < i && rs[k].state.Present? ==> rs[k].blobKey in Sealed()
      {
        if rs[i].state.Present? {
          err := CheckBlob(rs[i].blobKey);
          if err.Some? {
            return;
          }
        }
      }
      err := None;
    }

    /** The blobs an Apply call with this supplied blob can rely on for r. */
    ghost function Available(r: Record, supplied: Option<seq<byte>>): set<seq<byte>>
      reads this
    {
      if supplied.None? then Sealed()
      else if r.state.Present? && env.digest(supplied.value) == r.blobKey then {r.blobKey}
      else {}
    }

    /** Classification, durable append and publication of one record. */
    method Apply(r: Record, supplied: Option<seq<byte>>, canceled: bool) returns (res: Result<ApplyResult>)
      requires Valid()
      modifies this`blobs, store`records, journal, journal.disk
      ensures Valid() && journal.disk.checkpoint == old(journal.disk.checkpoint)
      ensures var outcome := ApplyRecord(env, old(Available(r, supplied)), old(Current()), r);
              && (canceled ==> res == Err(Canceled))
              && (!canceled && outcome.Ok? ==> res == Ok(outcome.value.1) && Current() == outcome.value.0)
              && (!canceled && outcome.Err? ==> res.Err? && Reported(outcome.error, res.error))
      ensures res.Err? ==> Current() == old(Current())
      ensures journal.disk.trace == old(journal.disk.trace) +
                if res.Ok? && res.value.outcome.Applied? then AppendTrace(env, old(journal.Contents()), r, journal.disk.checkpoint) else []
      ensures supplied.None? ==> blobs == old(blobs)
      ensures old(Sealed()) <= Sealed()
      ensures res.Ok? && res.value.outcome.Applied? && r.state.Present? ==> r.blobKey in Sealed()
    {
      hide AppendTo, Validate, Storable, Sound, OpenLog;
      if canceled {
        return Err(Canceled);
      }
      var fault := Validate(env, r);
      if fault.Some? {
        return Err(fault.value);
      }
      var outcome := Classify(r, Lookup(store.records, KeyOf(r)));
      if outcome.Err? || !outcome.value.outcome.Applied? {
        return outcome;
      }
      if r.state.Present? {
        var missing := EnsureBlob(r.blobKey, supplied);
        if missing.Some? {
          return Err(missing.value);
        }
      }
      var err := journal.Append(r, false);
      if err.Some? {
        return Err(err.value);
      }
      res := store.Apply(r);
    }

    /** interrupted: the journal stops between its two renames. */
    method ApplySnapshot(c: Checkpoint, canceled: bool, interrupted: bool) returns (err: Option<Error>)
      requires Valid()
      modifies this`blobs, store`records, journal, journal.disk
      ensures Valid() && blobs == old(blobs)
      ensures var outcome := ApplySnapshotTo(env, Sealed(), old(journal.Contents()), c);
              if canceled || outcome.Err? then
                && err.Some? && (canceled ==> err == Some(Canceled)) && (!canceled ==> Reported(outcome.error, err.value))
                && Current() == old(Current()) && journal.disk.Now() == old(journal.disk.Now())
                && journal.disk.trace == old(journal.disk.trace)
              else
                && CheckpointBytes(env, outcome.value.0).Ok?
                && journal.disk.checkpoint == Some(CheckpointBytes(env, outcome.value.0).value)
                && Current() == (if interrupted then old(Current())
                                 else Replica(outcome.value.1, ViewOf(outcome.value.0.records)))
                && err == (if interrupted then Some(Canceled) else None)
                && journal.disk.trace == old(journal.disk.trace) +
                   RenameTrace(Image(old(journal.disk.journal), journal.disk.checkpoint), journal.disk.Now(), interrupted)
    {
      hide Normalize, InstallTo, CheckpointBytes, Storable, NormalForm, AllValid, DistinctKeys;
      if canceled {
        return Some(Canceled);
      }
      var normalized := NormalizeCheckpoint(env, c);
      if normalized.Err? {
        return Some(normalized.error);
      }
      var n := normalized.value;
      err := CheckBlobs(n.records);
      if err.Some? {
        return;
      }
      if ApplySnapshotTo(env, Sealed(), journal.Contents(), c).Ok? {
        ApplySnapshotInstalls(env, Sealed(), journal.Contents(), c);
      }
      err := journal.InstallSnapshot(n, false, interrupted);
      if err.Some? {
        return;
      }
      err := store.ReplaceSnapshot(n.records);
      ViewOfKeys(n.records);
    }
  }
}
