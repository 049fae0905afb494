/**
 * The journal's operations on values: what Append, Compact and InstallSnapshot decide and produce,
 * and what opening a directory that holds a journal file and a checkpoint file yields.
 */
module Logs {
  import opened Orders
  import opened Bytes
  import opened Versions
  import opened Outcomes
  import opened Records
  import opened Checkpoints
  import opened Merging
  import opened Codec

  // ---- append ----

  function HasRoom(env: Env, log: Log, r: Record): bool {
    |log.records| < env.maxJournalEntries && |JournalBytes(env, log)| + |Entry(env, r)| <= env.maxJournalBytes
  }

  function AppendTo(env: Env, log: Log, r: Record): Result<Log> {
    match Validate(env, r)
    case Some(e) => Err(e)
    case None =>
      if r.version.Le(log.Last()) then Err(JournalVersionOrder)
      else if !HasRoom(env, log, r) then Err(JournalLimit)
      else Ok(Log(log.floor, log.records + [r]))
  }

  /** A log the journal can hold: well formed and within its bounds. */
  ghost predicate Storable(env: Env, log: Log) {
    && WellFormed(env, log)
    && |log.records| <= env.maxJournalEntries
    && |JournalBytes(env, log)| <= env.maxJournalBytes
  }

  lemma AppendStorable(env: Env, log: Log, r: Record)
    requires Storable(env, log) && AppendTo(env, log, r).Ok?
    ensures Storable(env, AppendTo(env, log, r).value)
    ensures AppendTo(env, log, r).value.Last() == r.version
    ensures JournalBytes(env, AppendTo(env, log, r).value) == JournalBytes(env, log) + Entry(env, r)
  {
    hide EncodeHeader, Entry, Validate;
    var rs := log.records + [r];
    assert rs[..|rs| - 1] == log.records;
    var log' := AppendTo(env, log, r).value;
    assert EncodeHeader(env, log.floor) + (Entries(env, log.records) + Entry(env, r))
        == EncodeHeader(env, log.floor) + Entries(env, log.records) + Entry(env, r);
  }

  // ---- replay ----

  /** state.Apply over a list of records, stopping at the first refusal. */
  function ApplyAll(env: Env, v: View, rs: seq<Record>): (res: Result<View>)
    ensures res.Ok? ==> res.value == MergeAll(v, rs)
  {
    if rs == [] then Ok(v)
    else match ApplyAll(env, v, rs[..|rs| - 1])
      case Err(e) => Err(e)
      case Ok(u) => ApplyOne(env, u, rs[|rs| - 1])
  }

  /** state.Apply as a function of the view. */
  function ApplyOne(env: Env, v: View, r: Record): Result<View> {
    match Validate(env, r)
    case Some(e) => Err(e)
    case None =>
      match Classify(r, Lookup(v, KeyOf(r)))
      case Err(e) => Err(e)
      case Ok(_) => Ok(Merge(v, r))
  }

  lemma {:induction false} ApplyAllPrefix(env: Env, v: View, rs: seq<Record>, n: nat)
    requires n <= |rs| && ApplyAll(env, v, rs[..n]).Err?
    ensures ApplyAll(env, v, rs) == ApplyAll(env, v, rs[..n])
  {
    if n < |rs| {
      assert rs[..|rs| - 1][..n] == rs[..n];
      ApplyAllPrefix(env, v, rs[..|rs| - 1], n);
    } else {
      assert rs[..n] == rs;
    }
  }

  lemma {:induction false} MergeAllKeyed(v: View, rs: seq<Record>)
    requires Keyed(v)
    ensures Keyed(MergeAll(v, rs))
  {
    if rs != [] {
      MergeAllKeyed(v, rs[..|rs| - 1]);
    }
  }

  /** Replaying valid records in rising order over an older store refuses none. */
  lemma {:induction false} ReplayAccepts(env: Env, v: View, from: Version, rs: seq<Record>)
    requires Keyed(v) && Bounded(v, from) && Increasing(from, rs) && AllValid(env, rs)
    ensures ApplyAll(env, v, rs) == Ok(MergeAll(v, rs))
  {
    if rs != [] {
      var init := rs[..|rs| - 1];
      ReplayAccepts(env, v, from, init);
      ReplayApplies(v, from, rs, |init|);
    }
  }

  /** Loading a checkpoint into an empty store one record at a time refuses none and gives its view. */
  lemma {:induction false} CheckpointAccepts(env: Env, rs: seq<Record>)
    requires DistinctKeys(rs) && AllValid(env, rs)
    ensures ApplyAll(env, map[], rs) == Ok(ViewOf(rs))
  {
    if rs != [] {
      var n := |rs| - 1;
      assert rs[..n + 1] == rs;
      CheckpointAccepts(env, rs[..n]);
      ViewOfStep(rs, n);
    }
  }

  // ---- compaction ----

  /** The number of leading records at or below v. */
  function Cut(rs: seq<Record>, v: Version): (n: nat)
    ensures n <= |rs|
  {
    CutFrom(rs, v, 0)
  }

  function CutFrom(rs: seq<Record>, v: Version, i: nat): (n: nat)
    requires i <= |rs|
    ensures i <= n <= |rs|
    decreases |rs| - i
  {
    if i < |rs| && rs[i].version.Le(v) then CutFrom(rs, v, i + 1) else i
  }

  lemma {:induction false} CutFromMeaning(rs: seq<Record>, v: Version, i: nat)
    requires i <= |rs|
    ensures forall k :: i <= k < CutFrom(rs, v, i) ==> rs[k].version.Le(v)
    ensures CutFrom(rs, v, i) < |rs| ==> v.Lt(rs[CutFrom(rs, v, i)].version)
    decreases |rs| - i
  {
    if i < |rs| && rs[i].version.Le(v) {
      CutFromMeaning(rs, v, i + 1);
    }
  }

  lemma CutMeaning(rs: seq<Record>, v: Version)
    ensures forall i :: 0 <= i < Cut(rs, v) ==> rs[i].version.Le(v)
    ensures Cut(rs, v) < |rs| ==> v.Lt(rs[Cut(rs, v)].version)
  {
    CutFromMeaning(rs, v, 0);
  }

  lemma CutUnique(rs: seq<Record>, v: Version, n: nat)
    requires n <= |rs|
    requires forall i :: 0 <= i < n ==> rs[i].version.Le(v)
    requires n < |rs| ==> v.Lt(rs[n].version)
    ensures n == Cut(rs, v)
  {
    CutMeaning(rs, v);
  }

  datatype CompactionRequest = CompactionRequest(
    watermark: Version, records: seq<Record>, base: Option<Checkpoint>, peerWatermarks: seq<Version>)

  /** compactionBaseLocked */
  ghost function CompactionBase(env: Env, floor: Version, base: Option<Checkpoint>): Result<Checkpoint> {
    match base
    case None => if floor.IsZero() then Ok(Checkpoint(Zero, [])) else Err(CompactionBaseMismatch)
    case Some(c) =>
      match Normalize(env, c)
      case Err(e) => Err(e)
      case Ok(n) => if n.watermark != floor then Err(CompactionBaseMismatch) else Ok(n)
  }

  /** encodeCheckpoint applied to a normal form. */
  function CheckpointBytes(env: Env, c: Checkpoint): Result<seq<byte>> {
    match EncodeEnvelope(env, env.encodeCheckpoint(c))
    case Err(e) => Err(e)
    case Ok(b) => if |b| > env.limits.maxCheckpointBytes then Err(CheckpointTooLarge) else Ok(b)
  }

  ghost function CompactTo(env: Env, log: Log, q: CompactionRequest): Result<(Checkpoint, Log)> {
    if q.watermark.Le(log.floor) then Err(CompactionNoProgress)
    else if log.Last().Lt(q.watermark) then Err(CompactionWatermark)
    else if exists i :: 0 <= i < |q.peerWatermarks| && q.peerWatermarks[i].Lt(q.watermark) then Err(PeerBehindWatermark)
    else match CompactionBase(env, log.floor, q.base)
      case Err(e) => Err(e)
      case Ok(base) =>
        match Normalize(env, Checkpoint(q.watermark, q.records))
        case Err(e) => Err(e)
        case Ok(c) =>
          var n := Cut(log.records, q.watermark);
          match ApplyAll(env, map[], base.records + log.records[..n])
          case Err(_) => Err(CompactionUnsafe)
          case Ok(state) =>
            MergeAllKeyed(map[], base.records + log.records[..n]);
            if n == 0 then Err(CompactionNoProgress)
            else if SnapshotOf(state) != c.records then Err(CompactionUnsafe)
            else match CheckpointBytes(env, c)
              case Err(e) => Err(e)
              case Ok(_) => Ok((c, Log(q.watermark, log.records[n..])))
  }

  /** The store a checkpoint and the journal behind it stand for. */
  function Meaning(checkpoint: Option<Checkpoint>, log: Log): View {
    MergeAll(if checkpoint.None? then map[] else ViewOf(checkpoint.value.records), log.records)
  }

  /** The checkpoint file belongs to the journal: absent at floor zero, otherwise a normal form at the floor. */
  ghost predicate Matches(env: Env, checkpoint: Option<Checkpoint>, log: Log) {
    match checkpoint
    case None => log.floor.IsZero()
    case Some(c) => NormalForm(env, c) && c.watermark == log.floor
  }

  lemma BaseView(env: Env, checkpoint: Option<Checkpoint>, log: Log)
    requires Matches(env, checkpoint, log)
    ensures var v := Meaning(checkpoint, Log(log.floor, [])); Keyed(v) && Bounded(v, log.floor)
  {
    if checkpoint.Some? {
      NormalFormIsSnapshot(env, checkpoint.value);
    }
  }

  /** A matching checkpoint is the base the compaction asks for, and loads to the view it stands for. */
  lemma BaseAccepted(env: Env, checkpoint: Option<Checkpoint>, log: Log)
    requires Matches(env, checkpoint, log)
    ensures CompactionBase(env, log.floor, checkpoint).Ok?
    ensures var b := CompactionBase(env, log.floor, checkpoint).value;
            && DistinctKeys(b.records) && AllValid(env, b.records)
            && ViewOf(b.records) == Meaning(checkpoint, Log(log.floor, []))
  {
    if checkpoint.Some? {
      NormalizeMeaning(env, checkpoint.value);
      NormalFormIsSnapshot(env, checkpoint.value);
    }
  }

  /** The state a compaction rebuilds from the base and the prefix is the meaning of that prefix. */
  lemma CompactionState(env: Env, checkpoint: Option<Checkpoint>, log: Log, n: nat)
    requires Matches(env, checkpoint, log) && WellFormed(env, log) && n <= |log.records|
    ensures CompactionBase(env, log.floor, checkpoint).Ok?
    ensures var b := CompactionBase(env, log.floor, checkpoint).value;
            ApplyAll(env, map[], b.records + log.records[..n]) == Ok(Meaning(checkpoint, Log(log.floor, log.records[..n])))
  {
    BaseAccepted(env, checkpoint, log);
    BaseView(env, checkpoint, log);
    var b := CompactionBase(env, log.floor, checkpoint).value;
    CheckpointAccepts(env, b.records);
    ReplayAccepts(env, ViewOf(b.records), log.floor, log.records[..n]);
    ApplyAllAppend(env, map[], b.records, log.records[..n]);
  }

  lemma {:induction false} ApplyAllAppend(env: Env, v: View, rs: seq<Record>, ts: seq<Record>)
    requires ApplyAll(env, v, rs).Ok?
    ensures ApplyAll(env, v, rs + ts) == ApplyAll(env, ApplyAll(env, v, rs).value, ts)
  {
    if ts == [] {
      assert rs + ts == rs;
    } else {
      assert (rs + ts)[..|rs + ts| - 1] == rs + ts[..|ts| - 1];
      ApplyAllAppend(env, v, rs, ts[..|ts| - 1]);
    }
  }

  /** What an accepted compaction writes: the meaning of the folded prefix, and the untouched rest. */
  lemma CompactionOutput(env: Env, checkpoint: Option<Checkpoint>, log: Log, q: CompactionRequest)
    requires Matches(env, checkpoint, log) && WellFormed(env, log) && q.base == checkpoint
    requires CompactTo(env, log, q).Ok?
    ensures var (c, log') := CompactTo(env, log, q).value;
            var n := Cut(log.records, q.watermark);
            var prefix := Meaning(checkpoint, Log(log.floor, log.records[..n]));
            && log.floor.Lt(q.watermark) && q.watermark.Le(log.Last())
            && Keyed(prefix) && c.records == SnapshotOf(prefix) && c.watermark == q.watermark
            && log' == Log(q.watermark, log.records[n..])
            && NormalForm(env, c) && CheckpointBytes(env, c).Ok?
  {
    CompactionState(env, checkpoint, log, Cut(log.records, q.watermark));
    NormalizeOk(env, Checkpoint(q.watermark, q.records));
  }

  /**
   * Over a base in normal form: any accepted compaction leaves a matching checkpoint and a storable journal that
   * stand for the same store, with the same last version.
   */
  lemma MatchedCompaction(env: Env, checkpoint: Option<Checkpoint>, log: Log, q: CompactionRequest)
    requires Matches(env, checkpoint, log) && Storable(env, log) && q.base == checkpoint
    requires CompactTo(env, log, q).Ok?
    ensures var (c, log') := CompactTo(env, log, q).value;
            && Matches(env, Some(c), log') && Storable(env, log')
            && Meaning(Some(c), log') == Meaning(checkpoint, log)
            && log'.Last() == log.Last() && log'.floor == q.watermark && CheckpointBytes(env, c).Ok?
  {
    var n := Cut(log.records, q.watermark);
    CompactionOutput(env, checkpoint, log, q);
    PrefixSnapshot(env, checkpoint, log, n, CompactTo(env, log, q).value.0.records);
    TailStorable(env, log, q.watermark, n);
  }

  /** The base of a request as the compaction sees it. */
  ghost function NormalBase(env: Env, base: Option<Checkpoint>): Option<Checkpoint> {
    if base.Some? && Normalize(env, base.value).Ok? then Some(Normalize(env, base.value).value) else base
  }

  lemma NormalBaseSame(env: Env, log: Log, q: CompactionRequest)
    requires CompactTo(env, log, q).Ok?
    ensures var base := NormalBase(env, q.base);
            && Matches(env, base, log) && Meaning(base, log) == Meaning(q.base, log)
            && CompactTo(env, log, q.(base := base)) == CompactTo(env, log, q)
  {
    hide ApplyAll, CheckpointBytes, Cut, SnapshotOf;
    if q.base.Some? {
      NormalizeOk(env, q.base.value);
      NormalizeMeaning(env, Normalize(env, q.base.value).value);
    }
  }

  /**
   * Compaction preserves meaning: whatever accepted request and whatever the order of its base records, the new
   * checkpoint and the retained tail stand for the store that the base and the whole journal stood for, and
   * the last version is unchanged.
   */
  lemma CompactionPreservesMeaning(env: Env, log: Log, q: CompactionRequest)
    requires Storable(env, log) && CompactTo(env, log, q).Ok?
    ensures var (c, log') := CompactTo(env, log, q).value;
            && Matches(env, Some(c), log') && Storable(env, log')
            && Meaning(Some(c), log') == Meaning(q.base, log)
            && log'.Last() == log.Last() && log'.floor == q.watermark && CheckpointBytes(env, c).Ok?
  {
    hide CompactTo, Meaning, Matches, Storable, CheckpointBytes;
    NormalBaseSame(env, log, q);
    MatchedCompaction(env, NormalBase(env, q.base), log, q.(base := NormalBase(env, q.base)));
  }

  // ---- when a compaction is accepted ----

  /** Distinct valid records, none above the watermark. */
  ghost predicate Listable(env: Env, c: Checkpoint) {
    && (c.watermark == Zero ==> c.records == []) && AllValid(env, c.records) && DistinctKeys(c.records)
    && forall i :: 0 <= i < |c.records| ==> c.records[i].version.Le(c.watermark)
  }

  /** The same records in key order. */
  ghost function Listed(c: Checkpoint): Checkpoint {
    ViewOfKeys(c.records);
    Checkpoint(c.watermark, SnapshotOf(ViewOf(c.records)))
  }

  lemma NormalizeExactly(env: Env, c: Checkpoint)
    ensures Normalize(env, c) == Ok(Listed(c)) <==> Listable(env, c)
    ensures Normalize(env, c).Ok? <==> Listable(env, c)
  {
    hide SnapshotOf, FirstFault, AllValid, DistinctKeys;
    NormalizeMeaning(env, c);
  }

  /** The file of a checkpoint is its envelope, if it is within the bound. */
  lemma CheckpointBytesExactly(env: Env, c: Checkpoint)
    ensures var payload := env.encodeCheckpoint(c);
            CheckpointBytes(env, c).Ok? <==> 0 < |payload| < 0x1_0000_0000 && |payload| + 8 <= env.limits.maxCheckpointBytes
    ensures CheckpointBytes(env, c).Ok? ==> CheckpointBytes(env, c).value == Envelope(env, env.encodeCheckpoint(c))
    ensures 0 < |env.encodeCheckpoint(c)| < 0x1_0000_0000 && CheckpointBytes(env, c).Err? ==>
              CheckpointBytes(env, c) == Err(CheckpointTooLarge)
  {
  }

  /** A base the journal can be compacted over: none at floor zero, otherwise a checkpoint at the floor, in any record order. */
  ghost predicate BaseServes(env: Env, floor: Version, base: Option<Checkpoint>) {
    match base
    case None => floor == Zero
    case Some(c) => c.watermark == floor && Listable(env, c)
  }

  lemma BaseExactly(env: Env, floor: Version, base: Option<Checkpoint>)
    ensures CompactionBase(env, floor, base).Ok? <==> BaseServes(env, floor, base)
    ensures BaseServes(env, floor, base) ==>
              CompactionBase(env, floor, base).value == if base.None? then Checkpoint(Zero, []) else Listed(base.value)
    ensures !BaseServes(env, floor, base) && (base.Some? ==> Listable(env, base.value)) ==>
              CompactionBase(env, floor, base) == Err(CompactionBaseMismatch)
  {
    hide SnapshotOf, FirstFault, AllValid, DistinctKeys, Listable, Normalize;
    if base.Some? {
      NormalizeExactly(env, base.value);
    }
  }

  /** What the base and the prefix a compaction folds stand for. */
  lemma FoldedState(env: Env, log: Log, base: Option<Checkpoint>, n: nat)
    requires WellFormed(env, log) && BaseServes(env, log.floor, base) && n <= |log.records|
    ensures CompactionBase(env, log.floor, base).Ok?
    ensures var b := CompactionBase(env, log.floor, base).value;
            ApplyAll(env, map[], b.records + log.records[..n]) == Ok(Meaning(base, Log(log.floor, log.records[..n])))
  {
    hide SnapshotOf, FirstFault, AllValid, DistinctKeys, ApplyAll, WellFormed, NormalForm;
    BaseExactly(env, log.floor, base);
    if base.Some? {
      NormalizeExactly(env, base.value);
      NormalizeMeaning(env, base.value);
      NormalizeMeaning(env, Listed(base.value));
      CompactionState(env, Some(Listed(base.value)), log, n);
    } else {
      CompactionState(env, None, log, n);
    }
  }

  lemma SameListing(v: View, u: View)
    requires Keyed(v) && Keyed(u)
    ensures SnapshotOf(v) == SnapshotOf(u) <==> v == u
  {
    SnapshotRoundTrip(v);
    SnapshotRoundTrip(u);
  }

  /**
   * A compaction is accepted exactly when its watermark is above the floor and at most the tail, every peer has reached
   * it, the base serves, a record is folded, the checkpoint fits its file, and the records given are the store that base
   * and folded prefix stand for.
   */
  lemma CompactionAccepted(env: Env, log: Log, q: CompactionRequest)
    requires WellFormed(env, log)
    ensures var n, c := Cut(log.records, q.watermark), Checkpoint(q.watermark, q.records);
            CompactTo(env, log, q).Ok? <==>
              && log.floor.Lt(q.watermark) && q.watermark.Le(log.Last())
              && (forall i :: 0 <= i < |q.peerWatermarks| ==> q.watermark.Le(q.peerWatermarks[i]))
              && BaseServes(env, log.floor, q.base) && n > 0 && Listable(env, c) && CheckpointBytes(env, Listed(c)).Ok?
              && ViewOf(q.records) == Meaning(q.base, Log(log.floor, log.records[..n]))
  {
    hide SnapshotOf, ApplyAll, Cut, WellFormed, Listable, BaseServes, CheckpointBytes, Normalize, CompactionBase, Meaning;
    var n, c := Cut(log.records, q.watermark), Checkpoint(q.watermark, q.records);
    BaseExactly(env, log.floor, q.base);
    NormalizeExactly(env, c);
    if BaseServes(env, log.floor, q.base) {
      FoldedState(env, log, q.base, n);
      var b := CompactionBase(env, log.floor, q.base).value;
      MergeAllKeyed(map[], b.records + log.records[..n]);
      ViewOfKeys(q.records);
      SameListing(Meaning(q.base, Log(log.floor, log.records[..n])), ViewOf(q.records));
    }
  }

  /** The refusals that need no rebuilding, in the order they are looked for. */
  lemma CompactionRefused(env: Env, log: Log, q: CompactionRequest)
    ensures q.watermark.Le(log.floor) ==> CompactTo(env, log, q) == Err(CompactionNoProgress)
    ensures log.floor.Lt(q.watermark) && log.Last().Lt(q.watermark) ==> CompactTo(env, log, q) == Err(CompactionWatermark)
    ensures log.floor.Lt(q.watermark) && q.watermark.Le(log.Last()) ==>
              && ((exists i :: 0 <= i < |q.peerWatermarks| && q.peerWatermarks[i].Lt(q.watermark)) ==>
                    CompactTo(env, log, q) == Err(PeerBehindWatermark))
              && ((forall i :: 0 <= i < |q.peerWatermarks| ==> q.watermark.Le(q.peerWatermarks[i])) &&
                  !BaseServes(env, log.floor, q.base) && (q.base.Some? ==> Listable(env, q.base.value)) ==>
                    CompactTo(env, log, q) == Err(CompactionBaseMismatch))
  {
    hide SnapshotOf, ApplyAll, Cut, Listable, BaseServes, CheckpointBytes, Normalize, CompactionBase;
    BaseExactly(env, log.floor, q.base);
  }

  /** A checkpoint that lists the meaning of a prefix stands, with the rest, for the whole. */
  lemma PrefixSnapshot(env: Env, checkpoint: Option<Checkpoint>, log: Log, n: nat, rs: seq<Record>)
    requires Matches(env, checkpoint, log) && n <= |log.records|
    requires Keyed(Meaning(checkpoint, Log(log.floor, log.records[..n])))
    requires rs == SnapshotOf(Meaning(checkpoint, Log(log.floor, log.records[..n])))
    ensures MergeAll(ViewOf(rs), log.records[n..]) == Meaning(checkpoint, log)
  {
    SnapshotRoundTrip(Meaning(checkpoint, Log(log.floor, log.records[..n])));
    assert log.records == log.records[..n] + log.records[n..];
    MergeAllAppend(Meaning(checkpoint, Log(log.floor, [])), log.records[..n], log.records[n..]);
  }

  lemma AboveCut(from: Version, rs: seq<Record>, w: Version, i: nat)
    requires Increasing(from, rs) && Cut(rs, w) <= i < |rs|
    ensures w.Lt(rs[i].version)
  {
    CutMeaning(rs, w);
    var n := Cut(rs, w);
    assert n < i ==> rs[n].version.Lt(rs[i].version);
  }

  lemma TailIncreasing(from: Version, rs: seq<Record>, w: Version, n: nat)
    requires Increasing(from, rs) && n == Cut(rs, w) && w.Le(LastOf(from, rs)) && from.Lt(w)
    ensures Increasing(w, rs[n..]) && LastOf(w, rs[n..]) == LastOf(from, rs)
  {
    var tail := rs[n..];
    CutMeaning(rs, w);
    forall i | 0 <= i < |tail| ensures w.Lt(tail[i].version) {
      AboveCut(from, rs, w, n + i);
    }
    forall i, j | 0 <= i < j < |tail| ensures tail[i].version.Lt(tail[j].version) {
      assert rs[n + i].version.Lt(rs[n + j].version);
    }
    if tail == [] {
      assert rs[|rs| - 1].version.Le(w);
    }
  }

  lemma TailStorable(env: Env, log: Log, w: Version, n: nat)
    requires Storable(env, log) && n == Cut(log.records, w) && w.Le(log.Last()) && log.floor.Lt(w)
    ensures Storable(env, Log(w, log.records[n..])) && Log(w, log.records[n..]).Last() == log.Last()
  {
    TailIncreasing(log.floor, log.records, w, n);
    EntriesSuffix(env, log.records, n);
  }

  lemma {:induction false} EntriesSuffix(env: Env, rs: seq<Record>, n: nat)
    requires n <= |rs|
    ensures |Entries(env, rs)| == |Entries(env, rs[..n])| + |Entries(env, rs[n..])|
  {
    if n == |rs| {
      assert rs[..n] == rs;
    } else {
      EntriesSuffix(env, rs[..|rs| - 1], n);
      assert rs[..|rs| - 1][..n] == rs[..n];
      assert rs[n..][..|rs| - n - 1] == rs[..|rs| - 1][n..];
    }
  }

  // ---- snapshot installation ----

  ghost function InstallTo(env: Env, log: Log, c: Checkpoint): Result<(Checkpoint, Log)> {
    match Normalize(env, c)
    case Err(e) => Err(e)
    case Ok(n) =>
      if n.watermark.Lt(log.Last()) then Err(SnapshotStale)
      else match CheckpointBytes(env, n)
        case Err(e) => Err(e)
        case Ok(_) => Ok((n, Log(n.watermark, [])))
  }

  lemma InstallStorable(env: Env, log: Log, c: Checkpoint)
    requires HeaderBytes <= env.maxJournalBytes && 0 <= env.maxJournalEntries && InstallTo(env, log, c).Ok?
    ensures var (n, log') := InstallTo(env, log, c).value;
            && Matches(env, Some(n), log') && Storable(env, log')
            && n.watermark == c.watermark && ViewOf(n.records) == ViewOf(c.records)
            && log'.Last() == c.watermark && log.Last().Le(log'.Last())
  {
    hide Validate, FirstFault;
    NormalizeOk(env, c);
    assert |Entries(env, [])| == 0;
  }

  /** A snapshot is installed exactly when it lists distinct valid records, is not older than the tail, and fits its file. */
  lemma InstallExactly(env: Env, log: Log, c: Checkpoint)
    ensures InstallTo(env, log, c).Ok? <==>
            Listable(env, c) && log.Last().Le(c.watermark) && CheckpointBytes(env, Listed(c)).Ok?
    ensures InstallTo(env, log, c).Ok? ==> InstallTo(env, log, c).value == (Listed(c), Log(c.watermark, []))
    ensures Listable(env, c) && c.watermark.Lt(log.Last()) ==> InstallTo(env, log, c) == Err(SnapshotStale)
  {
    hide Normalize, CheckpointBytes, Listable, SnapshotOf;
    NormalizeExactly(env, c);
  }

  // ---- opening a directory ----

  datatype Image = Image(journal: seq<byte>, checkpoint: Option<seq<byte>>)
  datatype Opened = Opened(log: Log, checkpoint: Option<Checkpoint>, view: View)

  /** OpenJournal: the log a journal file opens to. */
  function OpenLog(env: Env, data: seq<byte>): Result<Log> {
    if |data| > env.maxJournalBytes then Err(JournalLimit)
    else if data == [] then Ok(Log(Zero, []))
    else match Parse(env, data)
      case Err(e) => Err(e)
      case Ok(p) => if |p.log.records| > env.maxJournalEntries then Err(JournalLimit) else Ok(p.log)
  }

  /** LoadCheckpoint on the bytes of an existing file. */
  ghost function LoadCheckpoint(env: Env, data: seq<byte>): Result<Checkpoint> {
    if |data| > env.limits.maxCheckpointBytes then Err(CheckpointTooLarge)
    else match OpenEnvelope(env, data, env.limits.maxCheckpointBytes, CheckpointCorrupt, CheckpointChecksum)
      case Err(e) => Err(e)
      case Ok(payload) =>
        match env.decodeCheckpoint(payload)
        case None => Err(CheckpointCorrupt)
        case Some(c) => Normalize(env, c)
  }

  /** Bytes open to a log exactly when they are within the bound and laid out as a journal of at most so many records. */
  lemma OpenLogExactly(env: Env, data: seq<byte>, log: Log)
    ensures OpenLog(env, data) == Ok(log) <==>
            && |data| <= env.maxJournalBytes
            && if data == [] then log == Log(Zero, [])
               else |log.records| <= env.maxJournalEntries &&
                    exists size, truncated, bs :: LaidOut(env, data, Parsed(log, size, truncated), bs)
    ensures |data| > env.maxJournalBytes ==> OpenLog(env, data) == Err(JournalLimit)
  {
    hide Parse, LaidOut;
    if OpenLog(env, data) == Ok(log) && data != [] {
      var p := Parse(env, data).value;
      ParseExactly(env, data, p);
      var bs :| LaidOut(env, data, p, bs);
      assert LaidOut(env, data, Parsed(log, p.size, p.truncated), bs);
    }
    if size, truncated, bs :| LaidOut(env, data, Parsed(log, size, truncated), bs) {
      ParseExactly(env, data, Parsed(log, size, truncated));
    }
  }

  /** A checkpoint file loads to c exactly when it is within the bound and is the envelope of a list whose key order is c. */
  lemma LoadExactly(env: Env, data: seq<byte>, c: Checkpoint)
    ensures LoadCheckpoint(env, data) == Ok(c) <==>
            && |data| <= env.limits.maxCheckpointBytes
            && exists payload ::
                 && 0 < |payload| < 0x1_0000_0000 && data == Envelope(env, payload)
                 && match env.decodeCheckpoint(payload)
                    case None => false
                    case Some(raw) => Listable(env, raw) && c == Listed(raw)
    ensures |data| <= env.limits.maxCheckpointBytes && BadChecksum(env, data, env.limits.maxCheckpointBytes) ==>
              LoadCheckpoint(env, data) == Err(CheckpointChecksum)
  {
    hide Normalize, OpenEnvelope, Envelope, Listable, SnapshotOf, BadChecksum;
    var max := env.limits.maxCheckpointBytes;
    ChecksumExactly(env, data, max, CheckpointCorrupt, CheckpointChecksum);
    if LoadCheckpoint(env, data) == Ok(c) {
      var payload := OpenEnvelope(env, data, max, CheckpointCorrupt, CheckpointChecksum).value;
      EnvelopeExactly(env, data, max, CheckpointCorrupt, CheckpointChecksum, payload);
      NormalizeExactly(env, env.decodeCheckpoint(payload).value);
    }
    if payload :| |data| <= max && 0 < |payload| < 0x1_0000_0000 && data == Envelope(env, payload)
                  && env.decodeCheckpoint(payload).Some? && Listable(env, env.decodeCheckpoint(payload).value)
                  && c == Listed(env.decodeCheckpoint(payload).value)
    {
      EnvelopeExactly(env, data, max, CheckpointCorrupt, CheckpointChecksum, payload);
      NormalizeExactly(env, env.decodeCheckpoint(payload).value);
    }
  }

  /** The blobs every present record refers to can be read back and verified. */
  ghost predicate Verified(blobs: set<seq<byte>>, rs: seq<Record>) {
    forall i :: 0 <= i < |rs| && rs[i].state.Present? ==> rs[i].blobKey in blobs
  }

  /** The journal and checkpoint part of openLifecycleRuntime. */
  ghost function Reopen(env: Env, blobs: set<seq<byte>>, image: Image): Result<Opened> {
    match OpenLog(env, image.journal)
    case Err(e) => Err(e)
    case Ok(log) => Restore(env, blobs, image.checkpoint, log)
  }

  /** What follows the opened journal: the checkpoint file, which must sit at the floor, and the replay. */
  ghost function Restore(env: Env, blobs: set<seq<byte>>, file: Option<seq<byte>>, log: Log): Result<Opened> {
    match file
    case None =>
      if !log.floor.IsZero() then Err(CheckpointRequired)
      else Rebuild(env, blobs, None, log)
    case Some(data) =>
      match LoadCheckpoint(env, data)
      case Err(e) => Err(e)
      case Ok(c) =>
        if c.watermark != log.floor then Err(CheckpointFloorMismatch)
        else if !Verified(blobs, c.records) then Err(BlobMissing)
        else Rebuild(env, blobs, Some(c), log)
  }

  ghost function Rebuild(env: Env, blobs: set<seq<byte>>, checkpoint: Option<Checkpoint>, log: Log): Result<Opened> {
    match ReplayAll(env, blobs, Meaning(checkpoint, Log(log.floor, [])), log.records)
    case Err(e) => Err(e)
    case Ok(v) => Ok(Opened(log, checkpoint, v))
  }

  predicate BlobPresent(blobs: set<seq<byte>>, r: Record) {
    r.state.Present? ==> r.blobKey in blobs
  }

  /** The replay callback of openLifecycleRuntime: each record's blob is verified, then the record is applied. */
  function ReplayAll(env: Env, blobs: set<seq<byte>>, v: View, rs: seq<Record>): Result<View> {
    if rs == [] then Ok(v)
    else match ReplayAll(env, blobs, v, rs[..|rs| - 1])
      case Err(e) => Err(e)
      case Ok(w) => if !BlobPresent(blobs, rs[|rs| - 1]) then Err(BlobMissing) else ApplyOne(env, w, rs[|rs| - 1])
  }

  lemma {:induction false} ReplayAllMeaning(env: Env, blobs: set<seq<byte>>, v: View, rs: seq<Record>)
    ensures ReplayAll(env, blobs, v, rs).Ok? ==> Verified(blobs, rs) && ReplayAll(env, blobs, v, rs) == ApplyAll(env, v, rs)
    ensures ApplyAll(env, v, rs).Ok? ==>
              ReplayAll(env, blobs, v, rs) == if Verified(blobs, rs) then ApplyAll(env, v, rs) else Err(BlobMissing)
  {
    hide ApplyOne;
    if rs != [] {
      var init, r := rs[..|rs| - 1], rs[|rs| - 1];
      ReplayAllMeaning(env, blobs, v, init);
      assert rs == init + [r];
      assert Verified(blobs, rs) <==> Verified(blobs, init) && BlobPresent(blobs, r);
    }
  }

  lemma CheckpointRoundTrip(env: Env, c: Checkpoint)
    requires Sound(env) && NormalForm(env, c) && CheckpointBytes(env, c).Ok?
    ensures LoadCheckpoint(env, CheckpointBytes(env, c).value) == Ok(c)
  {
    var payload := env.encodeCheckpoint(c);
    EnvelopeRoundTrip(env, payload, env.limits.maxCheckpointBytes, CheckpointCorrupt, CheckpointChecksum);
    NormalizeMeaning(env, c);
  }

  lemma OpenLogRoundTrip(env: Env, log: Log)
    requires Sound(env) && Storable(env, log)
    ensures OpenLog(env, JournalBytes(env, log)) == Ok(log)
  {
    JournalRoundTrip(env, log);
  }

  /** The bytes on disk when journal and checkpoint are in step. */
  ghost predicate Stored(env: Env, image: Image, checkpoint: Option<Checkpoint>, log: Log) {
    && Matches(env, checkpoint, log) && Storable(env, log)
    && image.journal == JournalBytes(env, log)
    && match checkpoint
       case None => image.checkpoint.None?
       case Some(c) => CheckpointBytes(env, c).Ok? && image.checkpoint == Some(CheckpointBytes(env, c).value)
  }

  ghost predicate AllVerified(blobs: set<seq<byte>>, checkpoint: Option<Checkpoint>, log: Log) {
    Verified(blobs, log.records) && (checkpoint.Some? ==> Verified(blobs, checkpoint.value.records))
  }

  /** A directory in step opens to exactly the log, the checkpoint and the store it stands for. */
  lemma ReopenStored(env: Env, blobs: set<seq<byte>>, image: Image, checkpoint: Option<Checkpoint>, log: Log)
    requires Sound(env) && Stored(env, image, checkpoint, log)
    ensures Reopen(env, blobs, image) ==
            if AllVerified(blobs, checkpoint, log) then Ok(Opened(log, checkpoint, Meaning(checkpoint, log)))
            else Err(BlobMissing)
  {
    OpenLogRoundTrip(env, log);
    if checkpoint.Some? {
      CheckpointRoundTrip(env, checkpoint.value);
    }
    BaseView(env, checkpoint, log);
    ReplayAccepts(env, Meaning(checkpoint, Log(log.floor, [])), log.floor, log.records);
    ReplayAllMeaning(env, blobs, Meaning(checkpoint, Log(log.floor, [])), log.records);
  }
}
