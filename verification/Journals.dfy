/**
 * The durable journal object over a directory that records every state a crash could expose:
 * Append, Compact, InstallSnapshot and opening (journal.go).
 */
module Journals {
  import opened Bytes
  import opened Versions
  import opened Outcomes
  import opened Records
  import opened Checkpoints
  import opened Merging
  import opened Codec
  import opened Logs

  /** The directory states an append of data to the journal file passes through, byte by byte. */
  ghost function Torn(journal: seq<byte>, data: seq<byte>, checkpoint: Option<seq<byte>>): seq<Image> {
    seq(|data|, i requires 0 <= i < |data| => Image(journal + data[..i + 1], checkpoint))
  }

  /** The journal and checkpoint files. Appends may tear at any byte; renames are atomic. */
  class Disk {
    var journal: seq<byte>
    var checkpoint: Option<seq<byte>>
    // every state the directory has been in, the present one last
    ghost var trace: seq<Image>

    constructor (image: Image)
      ensures journal == image.journal && checkpoint == image.checkpoint && trace == [image]
    {
      journal, checkpoint, trace := image.journal, image.checkpoint, [image];
    }

    ghost function Now(): Image
      reads this
    {
      Image(journal, checkpoint)
    }

    /** writeFull at the end of the journal file, byte by byte. */
    method Extend(data: seq<byte>)
      modifies this
      ensures journal == old(journal) + data && checkpoint == old(checkpoint)
      ensures trace == old(trace) + Torn(old(journal), data, checkpoint)
    {
      assert journal + data[..0] == journal && data[..|data|] == data;
      for i := 0 to |data|
        invariant journal == old(journal) + data[..i] && checkpoint == old(checkpoint)
        invariant trace == old(trace) + Torn(old(journal), data, checkpoint)[..i]
      {
        journal := journal + [data[i]];
        assert journal == old(journal) + data[..i + 1];
        trace := trace + [Now()];
      }
      ghost var torn := Torn(old(journal), data, checkpoint);
      assert torn[..|data|] == torn;
    }

    /** Rename of a complete temporary file over the journal. */
    method ReplaceJournal(data: seq<byte>)
      modifies this
      ensures journal == data && checkpoint == old(checkpoint)
      ensures trace == old(trace) + [Now()]
    {
      journal := data;
      trace := trace + [Now()];
    }

    /** atomicWrite of the checkpoint file. */
    method ReplaceCheckpoint(data: seq<byte>)
      modifies this
      ensures checkpoint == Some(data) && journal == old(journal)
      ensures trace == old(trace) + [Now()]
    {
      checkpoint := Some(data);
      trace := trace + [Now()];
    }
  }

  /** The directory states an accepted append passes through. */
  ghost function AppendTrace(env: Env, log: Log, r: Record, checkpoint: Option<seq<byte>>): seq<Image> {
    Torn(JournalBytes(env, log), Entry(env, r), checkpoint)
  }

  /** An append can be torn after any number of its bytes: each such file is one of its states, and there are no others. */
  lemma EveryTear(env: Env, log: Log, r: Record, checkpoint: Option<seq<byte>>, journal: seq<byte>)
    ensures Image(journal, checkpoint) in AppendTrace(env, log, r, checkpoint) <==>
            exists n :: 0 < n <= |Entry(env, r)| && journal == JournalBytes(env, log) + Entry(env, r)[..n]
  {
    hide JournalBytes, Entry;
    var trace := AppendTrace(env, log, r, checkpoint);
    forall n | 0 < n <= |Entry(env, r)| ensures Image(JournalBytes(env, log) + Entry(env, r)[..n], checkpoint) in trace {
      assert trace[n - 1] == Image(JournalBytes(env, log) + Entry(env, r)[..n], checkpoint);
    }
    if Image(journal, checkpoint) in trace {
      var i :| 0 <= i < |trace| && trace[i] == Image(journal, checkpoint);
      assert journal == JournalBytes(env, log) + Entry(env, r)[..i + 1];
    }
  }

  /** Every state of an append opens to the old log, except the last, which opens to the new one. */
  lemma AppendTraceOpens(env: Env, log: Log, r: Record, checkpoint: Option<seq<byte>>, i: nat)
    requires Sound(env) && Storable(env, log) && AppendTo(env, log, r).Ok?
    requires i < |AppendTrace(env, log, r, checkpoint)|
    ensures var trace := AppendTrace(env, log, r, checkpoint);
            && trace[i].checkpoint == checkpoint
            && OpenLog(env, trace[i].journal) == Ok(if i == |trace| - 1 then AppendTo(env, log, r).value else log)
  {
    hide OpenLog, Storable, JournalBytes, Sound;
    var was, all := JournalBytes(env, log), JournalBytes(env, AppendTo(env, log, r).value);
    AppendBytes(env, log, r);
    assert was + Entry(env, r)[..i + 1] == all[..|was| + i + 1];
    AppendCrash(env, log, r, |was| + i + 1);
  }

  lemma AppendBytes(env: Env, log: Log, r: Record)
    ensures JournalBytes(env, Log(log.floor, log.records + [r])) == JournalBytes(env, log) + Entry(env, r)
  {
    assert (log.records + [r])[..|log.records|] == log.records;
  }

  /** An append that tears leaves the old log; only the complete envelope makes the new one. */
  lemma AppendCrash(env: Env, log: Log, r: Record, n: nat)
    requires Sound(env) && Storable(env, log) && AppendTo(env, log, r).Ok?
    requires var log' := AppendTo(env, log, r).value;
             |JournalBytes(env, log)| <= n <= |JournalBytes(env, log')|
    ensures var log' := AppendTo(env, log, r).value;
            OpenLog(env, JournalBytes(env, log')[..n]) == Ok(if n == |JournalBytes(env, log')| then log' else log)
  {
    var log' := AppendTo(env, log, r).value;
    AppendStorable(env, log, r);
    TornTail(env, log', n);
    AppendWhole(env, log, r, n);
  }

  lemma AppendWhole(env: Env, log: Log, r: Record, n: nat)
    requires |JournalBytes(env, log)| <= n
    ensures var rs := log.records + [r];
            && rs[..|log.records|] == log.records && rs[..|rs|] == rs
            && Whole(env, rs, n) == if |JournalBytes(env, Log(log.floor, rs))| <= n then |rs| else |log.records|
  {
    var rs := log.records + [r];
    assert rs[..|rs| - 1] == log.records && rs[..|rs|] == rs && log.records[..|log.records|] == log.records;
  }

  /** Applies records to a new store and lists it. */
  method ScratchSnapshot(env: Env, rs: seq<Record>) returns (snapshot: Result<seq<Record>>)
    ensures var state := ApplyAll(env, map[], rs);
            if state.Ok? then Keyed(state.value) && snapshot == Ok(SnapshotOf(state.value)) else snapshot.Err?
  {
    var state := new Store(env);
    for i := 0 to |rs|
      invariant fresh(state) && state.env == env
      invariant ApplyAll(env, map[], rs[..i]) == Ok(state.records)
    {
      assert rs[..i + 1][..i] == rs[..i];
      var res := state.Apply(rs[i]);
      if res.Err? {
        ApplyAllPrefix(env, map[], rs, i + 1);
        return Err(res.error);
      }
    }
    assert rs[..|rs|] == rs;
    MergeAllKeyed(map[], rs);
    var sorted := state.Snapshot();
    snapshot := Ok(sorted);
  }

  /** The temporary file of rewriteLocked; a record that no longer fits is refused. */
  method BuildFile(env: Env, log: Log) returns (res: Result<seq<byte>>)
    ensures res == if log.records == [] || |JournalBytes(env, log)| <= env.maxJournalBytes then Ok(JournalBytes(env, log))
                   else Err(JournalLimit)
  {
    hide EncodeHeader, Envelope;
    var data := EncodeHeader(env, log.floor);
    var rs := log.records;
    assert rs[..|rs|] == rs;
    for i := 0 to |rs|
      invariant data == EncodeHeader(env, log.floor) + Entries(env, rs[..i])
      invariant i > 0 ==> |data| <= env.maxJournalBytes
    {
      assert rs[..i + 1][..i] == rs[..i];
      EntriesSuffix(env, rs, i + 1);
      var entry := Envelope(env, env.encode(rs[i]));
      if |data| + |entry| > env.maxJournalBytes {
        return Err(JournalLimit);
      }
      data := data + entry;
    }
    res := Ok(data);
  }

  class Journal {
    const env: Env
    const disk: Disk
    var floor: Version
    var last: Version
    var records: seq<Record>
    var size: nat

    ghost function Contents(): Log
      reads this
    {
      Log(floor, records)
    }

    /** Memory agrees with the journal file, and the file is within its bounds. */
    ghost predicate Valid()
      reads this, disk
    {
      && Sound(env) && Storable(env, Contents())
      && last == Contents().Last()
      && disk.journal == JournalBytes(env, Contents()) && size == |disk.journal|
    }

    constructor (env: Env, disk: Disk, log: Log)
      ensures this.env == env && this.disk == disk && Contents() == log
      ensures Sound(env) && Storable(env, log) && disk.journal == JournalBytes(env, log) ==> Valid()
    {
      this.env, this.disk := env, disk;
      floor, records, last := log.floor, log.records, log.Last();
      size := |disk.journal|;
    }

    method Append(r: Record, canceled: bool) returns (err: Option<Error>)
      requires Valid()
      modifies this, disk
      ensures Valid() && disk.checkpoint == old(disk.checkpoint)
      ensures err == if canceled then Some(Canceled) else FaultOf(AppendTo(env, old(Contents()), r))
      ensures err.Some? ==> Contents() == old(Contents()) && disk.Now() == old(disk.Now()) && disk.trace == old(disk.trace)
      ensures err.None? ==>
                && AppendTo(env, old(Contents()), r) == Ok(Contents())
                && disk.trace == old(disk.trace) + AppendTrace(env, old(Contents()), r, disk.checkpoint)
    {
      if canceled {
        return Some(Canceled);
      }
      var fault := Validate(env, r);
      if fault.Some? {
        return fault;
      }
      var entry := Envelope(env, env.encode(r));
      if r.version.Le(last) {
        return Some(JournalVersionOrder);
      }
      if |records| >= env.maxJournalEntries || size + |entry| > env.maxJournalBytes {
        return Some(JournalLimit);
      }
      ghost var log := Contents();
      AppendStorable(env, log, r);
      disk.Extend(entry);
      records, last, size := records + [r], r.version, size + |entry|;
      err := None;
    }

    /** interrupted: the call stops, by cancellation or a failed write, between the two renames. */
    method Compact(q: CompactionRequest, canceled: bool, interrupted: bool) returns (err: Option<Error>)
      requires Valid()
      modifies this, disk
      ensures Valid()
      ensures var outcome := CompactTo(env, old(Contents()), q);
              if canceled || outcome.Err? then
                && err == Some(if canceled then Canceled else outcome.error)
                && Contents() == old(Contents()) && disk.Now() == old(disk.Now()) && disk.trace == old(disk.trace)
              else
                && CheckpointBytes(env, outcome.value.0).Ok?
                && disk.checkpoint == Some(CheckpointBytes(env, outcome.value.0).value)
                && Contents() == (if interrupted then old(Contents()) else outcome.value.1)
                && err == (if interrupted then Some(Canceled) else None)
                && disk.trace == old(disk.trace) + RenameTrace(Image(old(disk.journal), disk.checkpoint), disk.Now(), interrupted)
      ensures err.None? ==>
                && old(floor).Lt(q.watermark) && q.watermark.Le(old(last))
                && forall i :: 0 <= i < |q.peerWatermarks| ==> q.watermark.Le(q.peerWatermarks[i])
      ensures !canceled && old(floor).Lt(q.watermark) && q.watermark.Le(old(last)) &&
              (exists i :: 0 <= i < |q.peerWatermarks| && q.peerWatermarks[i].Lt(q.watermark)) ==>
                err == Some(PeerBehindWatermark)
    {
      hide CompactTo, CheckpointBytes, Sound, Storable, JournalBytes;
      CompactionRefused(env, Contents(), q);
      if canceled {
        return Some(Canceled);
      }
      var plan := CheckCompaction(q);
      if plan.Err? {
        return Some(plan.error);
      }
      var (checkpoint, prefix) := plan.value;
      ghost var log := Contents();
      disk.ReplaceCheckpoint(CheckpointBytes(env, checkpoint).value);
      if interrupted {
        return Some(Canceled);
      }
      CompactShape(env, log, q);
      TailStorable(env, log, q.watermark, prefix);
      Rewrite(q.watermark, records[prefix..]);
      err := None;
    }

    /** Everything Compact checks before it writes: the checkpoint to write and the length of the folded prefix. */
    method CheckCompaction(q: CompactionRequest) returns (res: Result<(Checkpoint, nat)>)
      requires last == Contents().Last()
      ensures match CompactTo(env, Contents(), q)
              case Err(e) => res == Err(e)
              case Ok((c, _)) => res == Ok((c, Cut(records, q.watermark))) && CheckpointBytes(env, c).Ok?
    {
      if q.watermark.Le(floor) {
        return Err(CompactionNoProgress);
      }
      if last.Lt(q.watermark) {
        return Err(CompactionWatermark);
      }
      for i := 0 to |q.peerWatermarks|
        invariant forall k :: 0 <= k < i ==> !q.peerWatermarks[k].Lt(q.watermark)
      {
        if q.peerWatermarks[i].Lt(q.watermark) {
          return Err(PeerBehindWatermark);
        }
      }
      var base := Base(q.base);
      if base.Err? {
        return Err(base.error);
      }
      var checkpoint := NormalizeCheckpoint(env, Checkpoint(q.watermark, q.records));
      if checkpoint.Err? {
        return Err(checkpoint.error);
      }
      var prefix, snapshot := RebuildPrefix(base.value, q.watermark);
      if snapshot.Err? {
        return Err(CompactionUnsafe);
      }
      if prefix == 0 {
        return Err(CompactionNoProgress);
      }
      if snapshot.value != checkpoint.value.records {
        return Err(CompactionUnsafe);
      }
      var data := CheckpointBytes(env, checkpoint.value);
      res := if data.Err? then Err(data.error) else Ok((checkpoint.value, prefix));
    }

    /** compactionBaseLocked */
    method Base(base: Option<Checkpoint>) returns (res: Result<Checkpoint>)
      ensures res == CompactionBase(env, floor, base)
    {
      if base.None? {
        return if floor.IsZero() then Ok(Checkpoint(Zero, [])) else Err(CompactionBaseMismatch);
      }
      res := NormalizeCheckpoint(env, base.value);
      if res.Ok? && res.value.watermark != floor {
        res := Err(CompactionBaseMismatch);
      }
    }

    /** The prefix Compact folds into its scratch store after the base records. */
    method RebuildPrefix(base: Checkpoint, watermark: Version) returns (n: nat, snapshot: Result<seq<Record>>)
      ensures n == Cut(records, watermark)
      ensures var state := ApplyAll(env, map[], base.records + records[..n]);
              if state.Ok? then Keyed(state.value) && snapshot == Ok(SnapshotOf(state.value)) else snapshot.Err?
    {
      n := 0;
      while n < |records| && records[n].version.Le(watermark)
        invariant n <= |records|
        invariant forall i :: 0 <= i < n ==> records[i].version.Le(watermark)
      {
        n := n + 1;
      }
      CutUnique(records, watermark, n);
      snapshot := ScratchSnapshot(env, base.records + records[..n]);
    }

    /** rewriteLocked: a new file holding the header and the retained records, renamed over the journal. */
    method Rewrite(newFloor: Version, tail: seq<Record>)
      requires Sound(env) && Storable(env, Log(newFloor, tail))
      modifies this, disk
      ensures Valid() && Contents() == Log(newFloor, tail)
      ensures disk.checkpoint == old(disk.checkpoint) && disk.trace == old(disk.trace) + [disk.Now()]
    {
      var built := BuildFile(env, Log(newFloor, tail));
      var data := built.value;
      disk.ReplaceJournal(data);
      floor, records, size := newFloor, tail, |data|;
      last := LastOf(newFloor, tail);
    }

    method InstallSnapshot(c: Checkpoint, canceled: bool, interrupted: bool) returns (err: Option<Error>)
      requires Valid()
      modifies this, disk
      ensures Valid()
      ensures var outcome := InstallTo(env, old(Contents()), c);
              if canceled || outcome.Err? then
                && err == Some(if canceled then Canceled else outcome.error)
                && Contents() == old(Contents()) && disk.Now() == old(disk.Now()) && disk.trace == old(disk.trace)
              else
                && CheckpointBytes(env, outcome.value.0).Ok?
                && disk.checkpoint == Some(CheckpointBytes(env, outcome.value.0).value)
                && Contents() == (if interrupted then old(Contents()) else outcome.value.1)
                && err == (if interrupted then Some(Canceled) else None)
                && disk.trace == old(disk.trace) + RenameTrace(Image(old(disk.journal), disk.checkpoint), disk.Now(), interrupted)
    {
      if canceled {
        return Some(Canceled);
      }
      var normalized := NormalizeCheckpoint(env, c);
      if normalized.Err? {
        return Some(normalized.error);
      }
      if normalized.value.watermark.Lt(last) {
        return Some(SnapshotStale);
      }
      var data := CheckpointBytes(env, normalized.value);
      if data.Err? {
        return Some(data.error);
      }
      InstallStorable(env, Contents(), c);
      disk.ReplaceCheckpoint(data.value);
      if interrupted {
        return Some(Canceled);
      }
      Rewrite(normalized.value.watermark, []);
      err := None;
    }
  }

  lemma CompactShape(env: Env, log: Log, q: CompactionRequest)
    requires CompactTo(env, log, q).Ok?
    ensures log.floor.Lt(q.watermark) && q.watermark.Le(log.Last())
    ensures CompactTo(env, log, q).value.1 == Log(q.watermark, log.records[Cut(log.records, q.watermark)..])
  {
    hide Normalize, ApplyAll, CheckpointBytes, CompactionBase;
  }

  /** The two states of a checkpoint rename followed by a journal rename, or the first when interrupted between them. */
  ghost function RenameTrace(window: Image, done: Image, interrupted: bool): seq<Image> {
    if interrupted then [window] else [window, done]
  }

  function FaultOf<T>(res: Result<T>): Option<Error> {
    match res
    case Ok(_) => None
    case Err(e) => Some(e)
  }
}
