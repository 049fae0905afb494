/** Bounded repair frames: batch validation, greedy selection, planning and delivery (repair.go). */
module Repair {
  import opened Orders
  import opened Bytes
  import opened Versions
  import opened Outcomes
  import opened Records
  import opened Checkpoints
  import opened Merging
  import opened Codec
  import opened Logs

  datatype Batch = Batch(from: Version, to: Version, more: bool, records: seq<Record>)

  /**
   * Repair limits as normalized() leaves them, the frame limit of the session, the record limits repair
   * validates against, and the lengths of the JSON payloads of a batch, a snapshot and an acknowledgement.
   */
  datatype RepairEnv = RepairEnv(
    env: Env, maxRecords: int, maxLogicalKeyBytes: int, maxMetadataBytes: int, maxFrameBytes: int, sessionBytes: int,
    batchBytes: Batch -> nat, snapshotBytes: Checkpoint -> nat, ackBytes: Version -> nat)

  // ---- validateRepairBatch ----

  function LogicalBytes(rs: seq<Record>): nat {
    if rs == [] then 0
    else LogicalBytes(rs[..|rs| - 1]) + |rs[|rs| - 1].namespace| + |rs[|rs| - 1].logicalKey|
  }

  function MetadataBytes(env: Env, rs: seq<Record>): nat {
    if rs == [] then 0 else MetadataBytes(env, rs[..|rs| - 1]) + |env.encode(rs[|rs| - 1])|
  }

  predicate WithinBytes(re: RepairEnv, rs: seq<Record>) {
    LogicalBytes(rs) <= re.maxLogicalKeyBytes && MetadataBytes(re.env, rs) <= re.maxMetadataBytes
  }

  /** What the scan reports after the records rs: the fault of the first record that has one. */
  function ScanFault(re: RepairEnv, from: Version, rs: seq<Record>): Option<Error> {
    if rs == [] then None
    else
      var init, r := rs[..|rs| - 1], rs[|rs| - 1];
      var f := ScanFault(re, from, init);
      if f.Some? then f
      else if r.version.Le(LastOf(from, init)) then Some(RepairOrder)
      else if !Valid(re.env, r) then Validate(re.env, r)
      else if !WithinBytes(re, rs) then Some(RepairLimit)
      else None
  }

  function BatchFault(re: RepairEnv, b: Batch): Option<Error> {
    if |b.records| > re.maxRecords then Some(RepairLimit)
    else if ScanFault(re, b.from, b.records).Some? then ScanFault(re, b.from, b.records)
    else if b.to != LastOf(b.from, b.records) then Some(RepairWatermarkMismatch)
    else None
  }

  lemma {:induction false} ScanFaultPrefix(re: RepairEnv, from: Version, rs: seq<Record>, n: nat)
    requires n <= |rs| && ScanFault(re, from, rs[..n]).Some?
    ensures ScanFault(re, from, rs) == ScanFault(re, from, rs[..n])
  {
    if n < |rs| {
      assert rs[..|rs| - 1][..n] == rs[..n];
      ScanFaultPrefix(re, from, rs[..|rs| - 1], n);
    } else {
      assert rs[..n] == rs;
    }
  }

  method ValidateBatch(re: RepairEnv, b: Batch) returns (fault: Option<Error>)
    ensures fault == BatchFault(re, b)
  {
    var rs := b.records;
    if |rs| > re.maxRecords {
      return Some(RepairLimit);
    }
    var previous, logical, metadata := b.from, 0, 0;
    for i := 0 to |rs|
      invariant previous == LastOf(b.from, rs[..i])
      invariant logical == LogicalBytes(rs[..i]) && metadata == MetadataBytes(re.env, rs[..i])
      invariant ScanFault(re, b.from, rs[..i]).None?
    {
      var r := rs[i];
      assert rs[..i + 1][..i] == rs[..i];
      fault := None;
      if r.version.Le(previous) {
        fault := Some(RepairOrder);
      } else if !Valid(re.env, r) {
        fault := Validate(re.env, r);
      } else {
        logical, metadata := logical + |r.namespace| + |r.logicalKey|, metadata + |re.env.encode(r)|;
        if logical > re.maxLogicalKeyBytes || metadata > re.maxMetadataBytes {
          fault := Some(RepairLimit);
        }
      }
      if fault.Some? {
        ScanFaultPrefix(re, b.from, rs, i + 1);
        return;
      }
      previous := r.version;
    }
    assert rs[..|rs|] == rs;
    fault := if b.to != previous then Some(RepairWatermarkMismatch) else None;
  }

  lemma {:induction false} ScanFaultMeaning(re: RepairEnv, from: Version, rs: seq<Record>)
    ensures ScanFault(re, from, rs).None? <==>
            Increasing(from, rs) && AllValid(re.env, rs) && (rs == [] || WithinBytes(re, rs))
  {
    if rs != [] {
      var init := rs[..|rs| - 1];
      ScanFaultMeaning(re, from, init);
      IncreasingSnoc(from, rs);
    }
  }

  lemma IncreasingSnoc(from: Version, rs: seq<Record>)
    requires rs != []
    ensures Increasing(from, rs) <==>
            Increasing(from, rs[..|rs| - 1]) && LastOf(from, rs[..|rs| - 1]).Lt(rs[|rs| - 1].version)
  {
    var init := rs[..|rs| - 1];
    if Increasing(from, init) && LastOf(from, init).Lt(rs[|rs| - 1].version) {
      forall i, j | 0 <= i < j < |rs| ensures rs[i].version.Lt(rs[j].version) {
        if j == |rs| - 1 && i < |init| - 1 {
          assert init[i].version.Lt(init[|init| - 1].version);
        }
      }
    }
  }

  /** A batch passes exactly when it is bounded, strictly ordered after From, valid, and ends at To. */
  lemma BatchFaultMeaning(re: RepairEnv, b: Batch)
    ensures BatchFault(re, b).None? <==>
            && |b.records| <= re.maxRecords && Increasing(b.from, b.records) && AllValid(re.env, b.records)
            && (b.records == [] || WithinBytes(re, b.records)) && b.to == LastOf(b.from, b.records)
  {
    ScanFaultMeaning(re, b.from, b.records);
  }

  /** EncodeRepairBatch */
  function EncodeFault(re: RepairEnv, b: Batch): Option<Error> {
    if BatchFault(re, b).Some? then BatchFault(re, b)
    else if re.batchBytes(b) > re.maxFrameBytes then Some(RepairFrameTooLarge)
    else None
  }

  // ---- Journal.RepairBatch, for any encoder verdict on batches ----

  type Encoder = Batch -> Option<Error>

  function Candidate(from: Version, remaining: seq<Record>, n: nat): Batch
    requires n <= |remaining|
  {
    Batch(from, LastOf(from, remaining[..n]), n < |remaining|, remaining[..n])
  }

  /** How far the selection loop gets from n selected records. */
  function Greedy(encode: Encoder, from: Version, remaining: seq<Record>, n: nat): (m: nat)
    requires n <= |remaining|
    ensures n <= m <= |remaining|
    ensures m > n ==> encode(Candidate(from, remaining, m)).None?
    ensures m < |remaining| ==> encode(Candidate(from, remaining, m + 1)).Some?
    decreases |remaining| - n
  {
    if n < |remaining| && encode(Candidate(from, remaining, n + 1)).None?
    then Greedy(encode, from, remaining, n + 1) else n
  }

  function Remaining(log: Log, from: Version): seq<Record> {
    log.records[Cut(log.records, from)..]
  }

  function SelectBatch(encode: Encoder, log: Log, from: Version): Result<Batch> {
    if from.Lt(log.floor) then Err(PeerBehindWatermark)
    else
      var remaining := Remaining(log, from);
      var n := Greedy(encode, from, remaining, 0);
      if n == 0 && remaining != [] then Err(encode(Candidate(from, remaining, 1)).value)
      else match encode(Candidate(from, remaining, n))
        case Some(e) => Err(e)
        case None => Ok(Candidate(from, remaining, n))
  }

  method RepairBatch(encode: Encoder, log: Log, from: Version) returns (res: Result<Batch>)
    requires Increasing(log.floor, log.records)
    ensures res == SelectBatch(encode, log, from)
  {
    if from.Lt(log.floor) {
      return Err(PeerBehindWatermark);
    }
    var remaining := FilterRemaining(log, from);
    var selected := SelectRecords(encode, from, remaining);
    if selected.Err? {
      return Err(selected.error);
    }
    var rs := selected.value;
    var b := Batch(from, if rs == [] then from else rs[|rs| - 1].version, |rs| < |remaining|, rs);
    res := if encode(b).Some? then Err(encode(b).value) else Ok(b);
  }

  /** The selection loop: the batch grows while it still encodes. */
  method SelectRecords(encode: Encoder, from: Version, remaining: seq<Record>) returns (res: Result<seq<Record>>)
    ensures var n := Greedy(encode, from, remaining, 0);
            if n == 0 && remaining != []
            then res == Err(encode(Candidate(from, remaining, 1)).value)
            else res == Ok(remaining[..n])
  {
    var n := 0;
    while n < |remaining|
      invariant n <= |remaining|
      invariant Greedy(encode, from, remaining, 0) == Greedy(encode, from, remaining, n)
    {
      var fault := encode(Candidate(from, remaining, n + 1));
      if fault.Some? {
        return if n == 0 then Err(fault.value) else Ok(remaining[..n]);
      }
      n := n + 1;
    }
    res := Ok(remaining[..n]);
  }

  method FilterRemaining(log: Log, from: Version) returns (remaining: seq<Record>)
    requires Increasing(log.floor, log.records)
    ensures remaining == Remaining(log, from)
  {
    var rs := log.records;
    ghost var c := Cut(rs, from);
    CutMeaning(rs, from);
    remaining := [];
    for i := 0 to |rs|
      invariant remaining == if i <= c then [] else rs[c..i]
    {
      if c <= i {
        AboveCut(log.floor, rs, from, i);
      }
      if from.Lt(rs[i].version) {
        assert c < i ==> rs[c..i + 1] == rs[c..i] + [rs[i]];
        remaining := remaining + [rs[i]];
      }
    }
    assert rs[|rs|..] == [];
  }

  lemma RemainingIncreasing(log: Log, from: Version)
    requires Increasing(log.floor, log.records)
    ensures Increasing(from, Remaining(log, from))
  {
    var c, rs := Cut(log.records, from), Remaining(log, from);
    forall i | 0 <= i < |rs| ensures from.Lt(rs[i].version) {
      AboveCut(log.floor, log.records, from, c + i);
    }
  }

  /**
   * A selected batch is exactly the journal's records in (From, To], in order: it is the stretch of the
   * journal between the two cuts. It encodes, is empty only when nothing lies beyond From, has More
   * exactly when records lie beyond To, and could not have taken one record more.
   */
  lemma SelectedBatch(encode: Encoder, log: Log, from: Version)
    requires Increasing(log.floor, log.records) && SelectBatch(encode, log, from).Ok?
    ensures var b := SelectBatch(encode, log, from).value;
            && b.from == from && from.Le(b.to) && log.floor.Le(from)
            && Cut(log.records, from) <= Cut(log.records, b.to)
            && b.records == log.records[Cut(log.records, from)..Cut(log.records, b.to)]
            && encode(b).None?
            && (b.records == [] <==> Remaining(log, from) == [])
            && (b.more <==> Remaining(log, b.to) != [])
            && (b.more ==> encode(Candidate(from, Remaining(log, from), |b.records| + 1)).Some?)
            && (b.records != [] ==> from.Lt(b.to) && b.to.Le(log.Last()))
  {
    var rs, c := log.records, Cut(log.records, from);
    var b := SelectBatch(encode, log, from).value;
    var n := |b.records|;
    RemainingIncreasing(log, from);
    CutMeaning(rs, from);
    if n == 0 {
      CutUnique(rs, b.to, c);
    } else {
      assert b.to == rs[c + n - 1].version;
      CutUnique(rs, b.to, c + n);
    }
  }

  /** A batch is selected exactly when its first record fits alone: the final re-encode never fails. */
  lemma SelectSucceeds(encode: Encoder, log: Log, from: Version)
    requires log.floor.Le(from) && Remaining(log, from) != []
    ensures SelectBatch(encode, log, from).Ok? <==> encode(Candidate(from, Remaining(log, from), 1)).None?
  {
  }

  /** The encoder the source plans with: EncodeRepairBatch under the coordinator's limits. */
  function EncoderOf(re: RepairEnv): Encoder {
    (b: Batch) => EncodeFault(re, b)
  }

  /** A selected batch satisfies every repair limit. */
  lemma SelectedWithinLimits(re: RepairEnv, log: Log, from: Version)
    requires Increasing(log.floor, log.records) && SelectBatch(EncoderOf(re), log, from).Ok?
    ensures var b := SelectBatch(EncoderOf(re), log, from).value;
            && |b.records| <= re.maxRecords && Increasing(b.from, b.records) && AllValid(re.env, b.records)
            && (b.records == [] || WithinBytes(re, b.records)) && re.batchBytes(b) <= re.maxFrameBytes
            && Delivery(re, b, from).Ok?
  {
    SelectedBatch(EncoderOf(re), log, from);
    BatchFaultMeaning(re, SelectBatch(EncoderOf(re), log, from).value);
  }

  // ---- snapshots and planning ----

  /** normalizeRepairSnapshot: the normalized checkpoint, or the limit it breaks. */
  ghost function BoundSnapshot(re: RepairEnv, c: Checkpoint): Result<Checkpoint> {
    match Normalize(re.env, c)
    case Err(e) => Err(e)
    case Ok(n) =>
      if |n.records| > re.maxRecords || (n.records != [] && !WithinBytes(re, n.records)) then Err(RepairLimit) else Ok(n)
  }

  /** EncodeRepairSnapshot */
  ghost function EncodeSnapshot(re: RepairEnv, c: Checkpoint): Result<Checkpoint> {
    match BoundSnapshot(re, c)
    case Err(e) => Err(e)
    case Ok(n) => if re.snapshotBytes(n) > re.maxFrameBytes then Err(RepairFrameTooLarge) else Ok(n)
  }

  datatype RepairPlan = JournalPlan(batch: Batch) | SnapshotPlan(from: Version, snapshot: Checkpoint)

  ghost function PlanRepair(re: RepairEnv, log: Log, from: Version, snapshot: Option<Checkpoint>): Result<RepairPlan> {
    if from.Lt(log.floor) then
      match snapshot
      case None => Err(RepairSnapshotRequired)
      case Some(c) =>
        if c.watermark != log.floor then Err(RepairSnapshotWatermark)
        else match EncodeSnapshot(re, c)
          case Err(e) => Err(e)
          case Ok(n) => Ok(SnapshotPlan(from, n))
    else match SelectBatch(EncoderOf(re), log, from)
      case Err(e) => Err(e)
      case Ok(b) => Ok(JournalPlan(b))
  }

  method EncodeSnapshotFrame(re: RepairEnv, c: Checkpoint) returns (res: Result<Checkpoint>)
    ensures res == EncodeSnapshot(re, c)
  {
    res := NormalizeSnapshot(re, c);
    if res.Ok? && re.snapshotBytes(res.value) > re.maxFrameBytes {
      return Err(RepairFrameTooLarge);
    }
  }

  method NormalizeSnapshot(re: RepairEnv, c: Checkpoint) returns (res: Result<Checkpoint>)
    ensures res == BoundSnapshot(re, c)
  {
    res := NormalizeCheckpoint(re.env, c);
    if res.Err? {
      return;
    }
    var rs := res.value.records;
    if |rs| > re.maxRecords {
      return Err(RepairLimit);
    }
    var over := ExceedsBytes(re, rs);
    if over {
      return Err(RepairLimit);
    }
  }

  /** The accumulating loop of normalizeRepairSnapshot. */
  method ExceedsBytes(re: RepairEnv, rs: seq<Record>) returns (over: bool)
    ensures over <==> rs != [] && !WithinBytes(re, rs)
  {
    var logical, metadata := 0, 0;
    for i := 0 to |rs|
      invariant logical == LogicalBytes(rs[..i]) && metadata == MetadataBytes(re.env, rs[..i])
      invariant i > 0 ==> WithinBytes(re, rs[..i])
    {
      assert rs[..i + 1][..i] == rs[..i];
      logical, metadata := logical + |rs[i].namespace| + |rs[i].logicalKey|, metadata + |re.env.encode(rs[i])|;
      if logical > re.maxLogicalKeyBytes || metadata > re.maxMetadataBytes {
        BytesMonotone(re, rs, i + 1);
        return true;
      }
    }
    assert rs[..|rs|] == rs;
    return false;
  }

  lemma {:induction false} BytesMonotone(re: RepairEnv, rs: seq<Record>, n: nat)
    requires n <= |rs|
    ensures LogicalBytes(rs[..n]) <= LogicalBytes(rs) && MetadataBytes(re.env, rs[..n]) <= MetadataBytes(re.env, rs)
  {
    if n < |rs| {
      assert rs[..|rs| - 1][..n] == rs[..n];
      BytesMonotone(re, rs[..|rs| - 1], n);
    } else {
      assert rs[..n] == rs;
    }
  }

  method Plan(re: RepairEnv, log: Log, from: Version, snapshot: Option<Checkpoint>) returns (res: Result<RepairPlan>)
    requires Increasing(log.floor, log.records)
    ensures res == PlanRepair(re, log, from, snapshot)
  {
    if from.Lt(log.floor) {
      if snapshot.None? {
        return Err(RepairSnapshotRequired);
      }
      if snapshot.value.watermark != log.floor {
        return Err(RepairSnapshotWatermark);
      }
      var frame := EncodeSnapshotFrame(re, snapshot.value);
      return if frame.Ok? then Ok(SnapshotPlan(from, frame.value)) else Err(frame.error);
    }
    var batch := RepairBatch(EncoderOf(re), log, from);
    res := if batch.Ok? then Ok(JournalPlan(batch.value)) else Err(batch.error);
  }

  // ---- sending and receiving frames ----

  /** The length of the payload of a plan. */
  function PlanBytes(re: RepairEnv, plan: RepairPlan): nat {
    match plan
    case JournalPlan(b) => re.batchBytes(b)
    case SnapshotPlan(_, c) => re.snapshotBytes(c)
  }

  /** DecodeRepairBatch of a payload of that length */
  function DecodeFault(re: RepairEnv, bytes: nat, b: Batch): Option<Error> {
    if bytes > re.maxFrameBytes then Some(RepairFrameTooLarge) else BatchFault(re, b)
  }

  /** DecodeRepairSnapshot of a payload of that length */
  ghost function DecodeSnapshot(re: RepairEnv, bytes: nat, c: Checkpoint): Result<Checkpoint> {
    if bytes > re.maxFrameBytes then Err(RepairFrameTooLarge) else BoundSnapshot(re, c)
  }

  /** writeAck: the encoder's limit, then the session's. */
  predicate AckFits(re: RepairEnv, v: Version) {
    re.ackBytes(v) <= re.maxFrameBytes && re.ackBytes(v) <= re.sessionBytes
  }

  // ---- delivery ----

  datatype DeliveryKind = Ready | Repeated

  /** RepairBatch.Delivery */
  function Delivery(re: RepairEnv, b: Batch, expected: Version): Result<DeliveryKind> {
    match BatchFault(re, b)
    case Some(e) => Err(e)
    case None =>
      if b.to.Le(expected) then Ok(Repeated)
      else if b.from != expected then Err(RepairWatermarkMismatch)
      else Ok(Ready)
  }

  // ---- the limits, the plan and the delivery, exactly ----

  /** The byte counts are sums over the records: of their keys, and of their encodings. */
  lemma {:induction false} BytesAreSums(env: Env, rs: seq<Record>, r: Record)
    ensures LogicalBytes([]) == 0 && LogicalBytes(rs + [r]) == LogicalBytes(rs) + |r.namespace| + |r.logicalKey|
    ensures MetadataBytes(env, []) == 0 && MetadataBytes(env, rs + [r]) == MetadataBytes(env, rs) + |env.encode(r)|
  {
    assert (rs + [r])[..|rs|] == rs;
  }

  /** A batch within the limits: valid records, strictly ordered after From, the last of them at To. */
  ghost predicate WellMade(re: RepairEnv, b: Batch) {
    && |b.records| <= re.maxRecords && Increasing(b.from, b.records) && AllValid(re.env, b.records)
    && (b.records != [] ==>
          LogicalBytes(b.records) <= re.maxLogicalKeyBytes && MetadataBytes(re.env, b.records) <= re.maxMetadataBytes)
    && b.to == (if b.records == [] then b.from else b.records[|b.records| - 1].version)
  }

  /** The refusals of a batch that is not: too many records, or the fault of the first record that has one, or a wrong end. */
  lemma BatchRefused(re: RepairEnv, b: Batch, i: nat)
    requires i <= |b.records| && Increasing(b.from, b.records[..i]) && AllValid(re.env, b.records[..i])
    requires i > 0 ==> WithinBytes(re, b.records[..i])
    ensures |b.records| > re.maxRecords ==> BatchFault(re, b) == Some(RepairLimit)
    ensures |b.records| <= re.maxRecords && i < |b.records| ==>
              var r := b.records[i];
              var ordered := (if i == 0 then b.from else b.records[i - 1].version).Lt(r.version);
              && (!ordered ==> BatchFault(re, b) == Some(RepairOrder))
              && (ordered && !Valid(re.env, r) ==> BatchFault(re, b) == Validate(re.env, r))
              && (ordered && Valid(re.env, r) && !WithinBytes(re, b.records[..i + 1]) ==> BatchFault(re, b) == Some(RepairLimit))
    ensures |b.records| <= re.maxRecords && i == |b.records| &&
            b.to != (if b.records == [] then b.from else b.records[|b.records| - 1].version) ==>
              BatchFault(re, b) == Some(RepairWatermarkMismatch)
  {
    hide Validate, WithinBytes;
    ScanFaultMeaning(re, b.from, b.records[..i]);
    if i < |b.records| {
      assert b.records[..i + 1][..i] == b.records[..i];
      if ScanFault(re, b.from, b.records[..i + 1]).Some? {
        ScanFaultPrefix(re, b.from, b.records, i + 1);
      }
    } else {
      assert b.records[..i] == b.records;
    }
  }

  /** A batch is ready exactly when it starts at the expected watermark and ends beyond it, repeated when it ends at or before it. */
  lemma DeliveryExactly(re: RepairEnv, b: Batch, expected: Version)
    ensures Delivery(re, b, expected) == Ok(Ready) <==> WellMade(re, b) && b.from == expected && expected.Lt(b.to)
    ensures Delivery(re, b, expected) == Ok(Repeated) <==> WellMade(re, b) && b.to.Le(expected)
    ensures WellMade(re, b) && b.from != expected && expected.Lt(b.to) ==>
              Delivery(re, b, expected) == Err(RepairWatermarkMismatch)
  {
    hide BatchFault, AllValid, Increasing;
    BatchFaultMeaning(re, b);
  }

  /** A payload decodes exactly when it is within the frame limit and its content within the others. */
  lemma DecodeExactly(re: RepairEnv, bytes: nat, b: Batch)
    ensures DecodeFault(re, bytes, b).None? <==> bytes <= re.maxFrameBytes && WellMade(re, b)
    ensures bytes > re.maxFrameBytes ==> DecodeFault(re, bytes, b) == Some(RepairFrameTooLarge)
    ensures EncodeFault(re, b).None? <==> WellMade(re, b) && re.batchBytes(b) <= re.maxFrameBytes
    ensures WellMade(re, b) && re.batchBytes(b) > re.maxFrameBytes ==> EncodeFault(re, b) == Some(RepairFrameTooLarge)
  {
    hide BatchFault, AllValid, Increasing;
    BatchFaultMeaning(re, b);
  }

  /** A snapshot that may travel: listable, and its records within the count and byte limits. */
  ghost predicate Travels(re: RepairEnv, c: Checkpoint) {
    && Listable(re.env, c) && |Listed(c).records| <= re.maxRecords
    && (Listed(c).records != [] ==>
          && LogicalBytes(Listed(c).records) <= re.maxLogicalKeyBytes
          && MetadataBytes(re.env, Listed(c).records) <= re.maxMetadataBytes)
  }

  lemma SnapshotExactly(re: RepairEnv, bytes: nat, c: Checkpoint)
    ensures DecodeSnapshot(re, bytes, c).Ok? <==> bytes <= re.maxFrameBytes && Travels(re, c)
    ensures DecodeSnapshot(re, bytes, c).Ok? ==> DecodeSnapshot(re, bytes, c).value == Listed(c)
    ensures bytes > re.maxFrameBytes ==> DecodeSnapshot(re, bytes, c) == Err(RepairFrameTooLarge)
    ensures EncodeSnapshot(re, c).Ok? <==> Travels(re, c) && re.snapshotBytes(Listed(c)) <= re.maxFrameBytes
    ensures EncodeSnapshot(re, c).Ok? ==> EncodeSnapshot(re, c).value == Listed(c)
    ensures Listable(re.env, c) && !Travels(re, c) ==> BoundSnapshot(re, c) == Err(RepairLimit)
  {
    hide Normalize, Listable, Listed;
    NormalizeExactly(re.env, c);
  }

  /**
   * The plan for a peer: below the floor the snapshot at the floor, if there is one and it may travel; otherwise a batch,
   * which exists unless the first record the peer lacks does not fit a frame alone.
   */
  lemma PlanExactly(re: RepairEnv, log: Log, from: Version, snapshot: Option<Checkpoint>)
    ensures from.Lt(log.floor) ==>
              && (snapshot.None? ==> PlanRepair(re, log, from, snapshot) == Err(RepairSnapshotRequired))
              && (snapshot.Some? && snapshot.value.watermark != log.floor ==>
                    PlanRepair(re, log, from, snapshot) == Err(RepairSnapshotWatermark))
              && (snapshot.Some? && snapshot.value.watermark == log.floor ==>
                    var c := snapshot.value;
                    && (PlanRepair(re, log, from, snapshot).Ok? <==> Travels(re, c) && re.snapshotBytes(Listed(c)) <= re.maxFrameBytes)
                    && (PlanRepair(re, log, from, snapshot).Ok? ==>
                          PlanRepair(re, log, from, snapshot).value == SnapshotPlan(from, Listed(c))))
    ensures log.floor.Le(from) ==>
              var lacks := log.records[Cut(log.records, from)..];
              && (PlanRepair(re, log, from, snapshot).Ok? <==>
                    if lacks == [] then EncodeFault(re, Batch(from, from, false, [])).None?
                    else EncodeFault(re, Batch(from, lacks[0].version, |lacks| > 1, [lacks[0]])).None?)
              && (PlanRepair(re, log, from, snapshot).Ok? ==> PlanRepair(re, log, from, snapshot).value.JournalPlan?)
  {
    hide EncodeSnapshot, Travels, Listed, EncodeFault;
    if snapshot.Some? {
      SnapshotExactly(re, 0, snapshot.value);
    }
    var lacks := Remaining(log, from);
    if lacks == [] {
      assert lacks[..0] == [];
    } else {
      assert lacks[..1] == [lacks[0]];
    }
  }
}
