/** Send, handle and acknowledge rounds bring the receiver to the source's store. */
module Convergence {
  import opened Orders
  import opened Bytes
  import opened Versions
  import opened Outcomes
  import opened Records
  import opened Checkpoints
  import opened Merging
  import opened Codec
  import opened Logs
  import opened Repair
  import opened Watermarks
  import opened History
  import opened Applying
  import opened Protocol

  function DoApply(cfg: Config, s: System): System {
    s.(rcv := Advanced(cfg.rcv, s.rcv))
  }

  function ApplyTimes(cfg: Config, s: System, n: nat): System {
    if n == 0 then s else DoApply(cfg, ApplyTimes(cfg, s, n - 1))
  }

  /** SendNext at the source, Handle at the receiver, Handle of the acknowledgement at the source. */
  ghost function Round(cfg: Config, s: System): System {
    match PlanRepair(cfg.srcRepair, s.src.log, s.src.Mark(), s.src.session)
    case Err(_) => s
    case Ok(JournalPlan(b)) =>
      var taken := DoBegin(cfg, DoSend(cfg, s), b);
      DoTakeAck(cfg, DoFinish(cfg, ApplyTimes(cfg, taken, |b.records|), true, false), b.to, false)
    case Ok(SnapshotPlan(_, c)) =>
      var taken := DoSnapshot(cfg, DoSend(cfg, s), c, false);
      DoTakeAck(cfg, DoFinish(cfg, taken, true, false), c.watermark, false)
  }

  ghost function Iterate<S>(step: S -> S, s: S, n: nat): S {
    if n == 0 then s else step(Iterate(step, s, n - 1))
  }

  ghost function Rounds(cfg: Config, s: System, n: nat): System {
    Iterate(x => Round(cfg, x), s, n)
  }

  /** The receiver can store and has the blob of every record of rs, one after the other behind log. */
  ghost predicate Takes(env: Env, blobs: set<seq<byte>>, log: Log, rs: seq<Record>) {
    && AllValid(env, rs) && Verified(blobs, rs)
    && |log.records| + |rs| <= env.maxJournalEntries
    && |JournalBytes(env, log)| + |Entries(env, rs)| <= env.maxJournalBytes
  }

  /** Every batch the source would encode passes its session's limit and the receiver's decoder. */
  ghost predicate Compatible(cfg: Config) {
    forall b :: EncodeFault(cfg.srcRepair, b).None? ==>
                  && cfg.srcRepair.batchBytes(b) <= cfg.srcRepair.sessionBytes
                  && DecodeFault(cfg.rcvRepair, cfg.srcRepair.batchBytes(b), b).None?
  }

  /** The record fits a frame of its own, whatever it follows. */
  ghost predicate FitsAlone(re: RepairEnv, r: Record) {
    forall from: Version, more: bool :: from.Lt(r.version) ==> EncodeFault(re, Batch(from, r.version, more, [r])).None?
  }

  /** A book has room for this version of the peer. */
  predicate BookTakes(be: BookEnv, m: Book, p: Peer, v: Version) {
    ValidPeer(be, p) && (p in m || |m| < be.maxPeers) && |FileOf(be, m[p := v])| <= be.maxBytes
  }

  /** An acknowledgement of v can be recorded by the receiver, written, read and recorded by the source. */
  ghost predicate Reaches(cfg: Config, s: System, v: Version) {
    && BookTakes(cfg.rcvBook, s.rcv.book, s.rcv.peer, v) && BookTakes(cfg.srcBook, s.src.book, s.src.peer, v)
    && AckFits(cfg.rcvRepair, v) && cfg.rcvRepair.ackBytes(v) <= cfg.srcRepair.maxFrameBytes
  }

  /** Where the batches to come start: at the receiver's watermark, or at the floor once a snapshot has brought it there. */
  function Start(s: System): Version {
    if s.src.Mark().Lt(s.src.log.floor) then s.src.log.floor else s.src.Mark()
  }

  /** The records the receiver has not acknowledged and will be sent as records. */
  function Rest(s: System): seq<Record> {
    s.src.history[Cut(s.src.history, Start(s))..]
  }

  /** A record of the rest can be sent on its own, is valid at the receiver, and its acknowledgement gets back. */
  ghost predicate Deliverable(cfg: Config, s: System, r: Record) {
    FitsAlone(cfg.srcRepair, r) && Valid(cfg.rcv, r) && Reaches(cfg, s, r.version)
  }

  /** The snapshot at the floor passes every limit on its way and the receiver installs it. */
  ghost predicate SnapshotReady(cfg: Config, s: System) {
    && s.src.session.Some? && EncodeSnapshot(cfg.srcRepair, s.src.session.value).Ok?
    && var c := EncodeSnapshot(cfg.srcRepair, s.src.session.value).value;
    && cfg.srcRepair.snapshotBytes(c) <= cfg.srcRepair.sessionBytes
    && DecodeSnapshot(cfg.rcvRepair, cfg.srcRepair.snapshotBytes(c), c).Ok?
    && ApplySnapshotTo(cfg.rcv, s.rcv.blobs, s.rcv.log, DecodeSnapshot(cfg.rcvRepair, cfg.srcRepair.snapshotBytes(c), c).value).Ok?
    && Reaches(cfg, s, s.src.log.floor)
  }

  /**
   * Both books agree on where the receiver is, though its journal may already be further; every record still to
   * be sent, and the snapshot if one is due, is within the limits of both nodes; and the receiver has room
   * and the blobs for the records it will append. Records below the snapshot do not matter.
   */
  ghost predicate InStep(cfg: Config, s: System) {
    && Inv(cfg, s) && s.rcv.work.Idle? && s.src.session == s.src.checkpoint && s.src.Mark() == s.rcv.Mark()
    && Compatible(cfg) && (forall r :: r in Rest(s) ==> Deliverable(cfg, s, r))
    && if s.src.Mark().Lt(s.src.log.floor) then
         SnapshotReady(cfg, s) && Takes(cfg.rcv, s.rcv.blobs, Log(s.src.log.floor, []), Rest(s))
       else Takes(cfg.rcv, s.rcv.blobs, s.rcv.log, s.src.history[Cut(s.src.history, s.rcv.log.Last())..])
  }

  /** Records the receiver has not acknowledged, and one more round if a snapshot is due first. */
  ghost function Left(s: System): nat {
    |s.src.history| - Cut(s.src.history, s.src.Mark()) + (if s.src.Mark().Lt(s.src.log.floor) then 1 else 0)
  }

  // ---- acknowledgements ----

  /** A book with room records a version above the one it holds. */
  lemma BookRecords(be: BookEnv, tail: Version, m: Book, p: Peer, v: Version)
    requires BookTakes(be, m, p, v) && Acknowledged(m, p).Lt(v) && v.Le(tail)
    ensures CoordinatedAck(be, tail, m, p, v) == Ok(m[p := v]) && Acknowledged(m[p := v], p) == v
  {
  }

  /** Recording one version leaves room for another. */
  lemma StillTakes(be: BookEnv, m: Book, p: Peer, v: Version, w: Version)
    requires BookTakes(be, m, p, w)
    ensures BookTakes(be, m[p := v], p, w)
  {
    assert m[p := v][p := w] == m[p := w];
  }

  /** The state after both books have recorded v for the other node. */
  function Recorded(s: System, v: Version): System {
    s.(src := s.src.(book := s.src.book[s.src.peer := v]), rcv := s.rcv.(book := s.rcv.book[s.rcv.peer := v]))
  }

  lemma StillReaches(cfg: Config, s: System, t: System, v: Version, w: Version)
    requires Reaches(cfg, s, w)
    requires t.src.peer == s.src.peer && t.rcv.peer == s.rcv.peer
    requires t.src.book == s.src.book[s.src.peer := v] && t.rcv.book == s.rcv.book[s.rcv.peer := v]
    ensures Reaches(cfg, t, w)
  {
    hide BookTakes;
    StillTakes(cfg.srcBook, s.src.book, s.src.peer, v, w);
    StillTakes(cfg.rcvBook, s.rcv.book, s.rcv.peer, v, w);
  }

  /** A handler about to acknowledge v does, and the source records it. */
  lemma AckRound(cfg: Config, s: System, v: Version)
    requires Target(s.rcv) == Some(v) && Reaches(cfg, s, v) && v.Le(s.rcv.log.Last()) && v.Le(s.src.log.Last())
    requires s.rcv.Mark().Lt(v) && s.src.Mark().Lt(v)
    ensures DoTakeAck(cfg, DoFinish(cfg, s, true, false), v, false) ==
            var t := Recorded(s, v); t.(rcv := t.rcv.(work := Idle), net := s.net + {AckFrame(v)})
  {
    hide BookTakes, AcknowledgeTo;
    BookRecords(cfg.rcvBook, s.rcv.log.Last(), s.rcv.book, s.rcv.peer, v);
    BookRecords(cfg.srcBook, s.src.log.Last(), s.src.book, s.src.peer, v);
  }

  // ---- a batch round ----

  lemma {:induction false} TakesPrefix(env: Env, blobs: set<seq<byte>>, log: Log, rs: seq<Record>, n: nat)
    requires Takes(env, blobs, log, rs) && n <= |rs|
    ensures Takes(env, blobs, Log(log.floor, log.records + rs[..n]), rs[n..])
    ensures |JournalBytes(env, Log(log.floor, log.records + rs[..n]))| == |JournalBytes(env, log)| + |Entries(env, rs[..n])|
  {
    EntriesSuffix(env, rs, n);
    var joined := log.records + rs[..n];
    EntriesSuffix(env, joined, |log.records|);
    assert joined[..|log.records|] == log.records && joined[|log.records|..] == rs[..n];
  }

  /** The next record of a history the receiver can take is applied. */
  lemma TakesNext(env: Env, blobs: set<seq<byte>>, h: seq<Record>, p: Replica, rs: seq<Record>)
    requires Increasing(Zero, h) && FoldInv(h, p.log, p.view) && Takes(env, blobs, p.log, rs) && rs != []
    requires Cut(h, p.log.Last()) < |h| && h[Cut(h, p.log.Last())] == rs[0]
    ensures ApplyRecord(env, blobs, p, rs[0]).Ok?
    ensures ApplyRecord(env, blobs, p, rs[0]).value.0
         == Replica(Log(p.log.floor, p.log.records + [rs[0]]), Fold(h, rs[0].version))
  {
    FoldNext(h, p.log.Last());
    EntriesSuffix(env, rs, 1);
    assert rs[..1] == [rs[0]] && [rs[0]][..0] == [];
    assert Entries(env, [rs[0]]) == [] + Entry(env, rs[0]);
  }

  function AdvancedTimes(env: Env, rcv: Receiver, n: nat): Receiver {
    if n == 0 then rcv else Advanced(env, AdvancedTimes(env, rcv, n - 1))
  }

  lemma {:induction false} ApplyTimesShape(cfg: Config, s: System, n: nat)
    ensures ApplyTimes(cfg, s, n) == s.(rcv := AdvancedTimes(cfg.rcv, s.rcv, n))
  {
    if n > 0 {
      ApplyTimesShape(cfg, s, n - 1);
    }
  }

  lemma BatchAt(h: seq<Record>, b: Batch, n: nat)
    requires GoodBatch(h, b) && n < |b.records|
    ensures Cut(h, b.from) + n < |h| && h[Cut(h, b.from) + n] == b.records[n]
  {
  }

  /** The receiver's journal once the history has been offered up to position k: what lies beyond its tail is appended. */
  function Extended(h: seq<Record>, log: Log, k: nat): Log
    requires k <= |h|
  {
    if k <= Cut(h, log.Last()) then log else Log(log.floor, log.records + h[Cut(h, log.Last())..k])
  }

  lemma ExtendedTail(h: seq<Record>, log: Log, k: nat)
    requires Increasing(Zero, h) && log.Last().Le(Tip(h)) && k <= |h|
    ensures var at := Extended(h, log, k).Last();
            && at.Le(Tip(h)) && log.Last().Le(at)
            && Cut(h, at) == (if k <= Cut(h, log.Last()) then Cut(h, log.Last()) else k)
            && (k > Cut(h, log.Last()) ==> at == h[k - 1].version)
  {
    var c := Cut(h, log.Last());
    if k > c {
      var more := h[c..k];
      assert (log.records + more)[|log.records| + |more| - 1] == h[k - 1];
      CutAt(h, k - 1);
      BelowTip(h, k - 1);
      CutBelow(h, log.Last(), k - 1);
    }
  }

  lemma ExtendedOnce(h: seq<Record>, log: Log, k: nat)
    requires k < |h|
    ensures Extended(h, log, k).floor == log.floor
    ensures Extended(h, log, k + 1) ==
            if k < Cut(h, log.Last()) then Extended(h, log, k) else Log(log.floor, Extended(h, log, k).records + [h[k]])
  {
    var c := Cut(h, log.Last());
    if k >= c {
      assert h[c..k + 1] == h[c..k] + [h[k]];
      assert h[c..c] == [];
    }
  }

  lemma TakesExtended(env: Env, blobs: set<seq<byte>>, h: seq<Record>, log: Log, k: nat)
    requires k <= |h| && Takes(env, blobs, log, h[Cut(h, log.Last())..])
    ensures var c := Cut(h, log.Last());
            Takes(env, blobs, Extended(h, log, k), h[if k <= c then c else k..])
  {
    hide Takes;
    var c := Cut(h, log.Last());
    if k > c {
      TakesPrefix(env, blobs, log, h[c..], k - c);
      SliceOfRest(h, c, 0, k - c);
      SliceOfRest(h, c, k - c, |h| - c);
    }
  }

  /** The receiver after n records of b. */
  function Partway(h: seq<Record>, rcv: Receiver, b: Batch, n: nat): Receiver
    requires Cut(h, b.from) + n <= |h|
  {
    var log := Extended(h, rcv.log, Cut(h, b.from) + n);
    rcv.(log := log, view := Fold(h, log.Last()), work := Taking(b, n))
  }

  /** A record the receiver already has is taken again without effect. */
  lemma TakesAgain(env: Env, blobs: set<seq<byte>>, h: seq<Record>, p: Replica, k: nat)
    requires Increasing(Zero, h) && p.view == Fold(h, p.log.Last()) && k < Cut(h, p.log.Last()) && Valid(env, h[k])
    ensures ApplyRecord(env, blobs, p, h[k]).Ok? && ApplyRecord(env, blobs, p, h[k]).value.0 == p
  {
    hide Validate;
    FoldAgain(h, p.log.Last(), k);
  }

  lemma PartwayApplied(env: Env, h: seq<Record>, rcv: Receiver, b: Batch, n: nat)
    requires Increasing(Zero, h) && GoodBatch(h, b) && n < |b.records| && Valid(env, b.records[n])
    requires b.from.Le(rcv.log.Last()) && rcv.log.Last().Le(Tip(h))
    requires Takes(env, rcv.blobs, rcv.log, h[Cut(h, rcv.log.Last())..])
    ensures Cut(h, b.from) + n < |h|
    ensures var at, next := Partway(h, rcv, b, n), Partway(h, rcv, b, n + 1);
            var res := ApplyRecord(env, rcv.blobs, Replica(at.log, at.view), b.records[n]);
            res.Ok? && res.value.0 == Replica(next.log, next.view)
  {
    hide Takes, Fold, GoodBatch, Increasing, Extended, ApplyRecord, Validate;
    BatchAt(h, b, n);
    var k, c := Cut(h, b.from) + n, Cut(h, rcv.log.Last());
    ExtendedTail(h, rcv.log, k);
    ExtendedTail(h, rcv.log, k + 1);
    ExtendedOnce(h, rcv.log, k);
    var at := Extended(h, rcv.log, k);
    if k < c {
      TakesAgain(env, rcv.blobs, h, Replica(at, Fold(h, at.Last())), k);
    } else {
      TakesExtended(env, rcv.blobs, h, rcv.log, k);
      TakesNext(env, rcv.blobs, h, Replica(at, Fold(h, at.Last())), h[k..]);
    }
  }

  lemma AdvancedOne(env: Env, rcv: Receiver, b: Batch, n: nat, q: Replica)
    requires rcv.work == Taking(b, n) && n < |b.records|
    requires ApplyRecord(env, rcv.blobs, Replica(rcv.log, rcv.view), b.records[n]).Ok?
    requires ApplyRecord(env, rcv.blobs, Replica(rcv.log, rcv.view), b.records[n]).value.0 == q
    ensures Advanced(env, rcv) == rcv.(log := q.log, view := q.view, work := Taking(b, n + 1))
  {
  }

  lemma {:induction false} AdvancedBatch(env: Env, h: seq<Record>, rcv: Receiver, b: Batch, n: nat)
    requires Increasing(Zero, h) && FoldInv(h, rcv.log, rcv.view) && rcv.work == Taking(b, 0)
    requires GoodBatch(h, b) && b.from.Le(rcv.log.Last()) && n <= |b.records| && AllValid(env, b.records)
    requires Takes(env, rcv.blobs, rcv.log, h[Cut(h, rcv.log.Last())..])
    ensures Cut(h, b.from) + n <= |h| && AdvancedTimes(env, rcv, n) == Partway(h, rcv, b, n)
  {
    hide Takes, Fold, Increasing, ApplyRecord, Validate, Advanced;
    if n == 0 {
      CutMonotone(h, b.from, rcv.log.Last());
    } else {
      AdvancedBatch(env, h, rcv, b, n - 1);
      PartwayApplied(env, h, rcv, b, n - 1);
      var next := Partway(h, rcv, b, n);
      AdvancedOne(env, Partway(h, rcv, b, n - 1), b, n - 1, Replica(next.log, next.view));
    }
  }

  lemma DoApplyPreserves(cfg: Config, s: System)
    requires Inv(cfg, s)
    ensures Inv(cfg, DoApply(cfg, s))
  {
    ApplyNextPreserves(cfg, s);
  }

  lemma {:induction false} ApplyTimesInv(cfg: Config, s: System, n: nat)
    requires Inv(cfg, s)
    ensures Inv(cfg, ApplyTimes(cfg, s, n))
  {
    hide Inv;
    if n > 0 {
      ApplyTimesInv(cfg, s, n - 1);
      DoApplyPreserves(cfg, ApplyTimes(cfg, s, n - 1));
    }
  }

  lemma RoundInv(cfg: Config, s: System)
    requires Inv(cfg, s)
    ensures Inv(cfg, Round(cfg, s))
  {
    hide Inv, DoSend, DoBegin, DoSnapshot, DoFinish, DoTakeAck, PlanRepair, ApplyTimes;
    match PlanRepair(cfg.srcRepair, s.src.log, s.src.Mark(), s.src.session)
    case Err(_) =>
    case Ok(JournalPlan(b)) =>
      SendPreserves(cfg, s);
      BeginBatchPreserves(cfg, DoSend(cfg, s), b);
      var applied := ApplyTimes(cfg, DoBegin(cfg, DoSend(cfg, s), b), |b.records|);
      ApplyTimesInv(cfg, DoBegin(cfg, DoSend(cfg, s), b), |b.records|);
      FinishPreserves(cfg, applied, true, false);
      TakeAckPreserves(cfg, DoFinish(cfg, applied, true, false), b.to, false);
    case Ok(SnapshotPlan(_, c)) =>
      SendPreserves(cfg, s);
      var taken := DoSnapshot(cfg, DoSend(cfg, s), c, false);
      TakeSnapshotPreserves(cfg, DoSend(cfg, s), c, false);
      FinishPreserves(cfg, taken, true, false);
      TakeAckPreserves(cfg, DoFinish(cfg, taken, true, false), c.watermark, false);
  }

  lemma FirstRemaining(h: seq<Record>, log: Log, from: Version)
    requires Tracks(h, log) && log.floor.Le(from) && from.Lt(Tip(h))
    ensures Cut(h, from) < |h| && Remaining(log, from) != [] && Remaining(log, from)[0] == h[Cut(h, from)]
    ensures from.Lt(h[Cut(h, from)].version)
  {
    TracksCut(h, log, from);
    CutMeaning(h, from);
  }

  /** The batch the source plans when the receiver lacks retained records. */
  lemma PlannedBatch(cfg: Config, s: System) returns (b: Batch)
    requires SourceInv(cfg.src, s.src) && s.src.log.floor.Le(s.src.Mark()) && s.src.Mark().Lt(Tip(s.src.history))
    requires forall r :: r in Rest(s) ==> FitsAlone(cfg.srcRepair, r)
    ensures PlanRepair(cfg.srcRepair, s.src.log, s.src.Mark(), s.src.session) == Ok(JournalPlan(b))
    ensures b.from == s.src.Mark() && b.from.Lt(b.to) && b.records != [] && b.to == LastOf(b.from, b.records)
    ensures GoodBatch(s.src.history, b) && EncodeFault(cfg.srcRepair, b).None? && b.to.Le(s.src.log.Last())
  {
    hide Storable, GoodSnapshot, EncodeFault, FitsAlone, Matches, Increasing, SelectBatch, GoodBatch, Cut;
    var h, log, from := s.src.history, s.src.log, s.src.Mark();
    FirstRemaining(h, log, from);
    var remaining := Remaining(log, from);
    assert h[Cut(h, from)] in Rest(s);
    FirstFits(cfg.srcRepair, from, remaining);
    StorableIncreasing(cfg.src, log);
    SelectSucceeds(EncoderOf(cfg.srcRepair), log, from);
    b := SelectBatch(EncoderOf(cfg.srcRepair), log, from).value;
    SelectedBatch(EncoderOf(cfg.srcRepair), log, from);
    BatchIsStretch(EncoderOf(cfg.srcRepair), h, log, from);
    EncodedEnds(cfg.srcRepair, b);
    TracksLast(h, log);
  }

  lemma EncodedEnds(re: RepairEnv, b: Batch)
    requires EncodeFault(re, b).None?
    ensures b.to == LastOf(b.from, b.records)
  {
    hide ScanFault;
  }

  lemma FirstFits(re: RepairEnv, from: Version, remaining: seq<Record>)
    requires remaining != [] && from.Lt(remaining[0].version) && FitsAlone(re, remaining[0])
    ensures EncoderOf(re)(Candidate(from, remaining, 1)).None?
  {
    hide EncodeFault;
    assert remaining[..1] == [remaining[0]];
    assert Candidate(from, remaining, 1) == Batch(from, remaining[0].version, 1 < |remaining|, [remaining[0]]);
  }

  lemma StorableIncreasing(env: Env, log: Log)
    requires Storable(env, log)
    ensures Increasing(log.floor, log.records)
  {
  }

  /** The records of a batch planned from the start of the rest are the rest's first ones. */
  lemma BatchInRest(h: seq<Record>, b: Batch)
    requires Increasing(Zero, h) && GoodBatch(h, b) && b.records != [] && b.to == LastOf(b.from, b.records)
    ensures (forall r :: r in b.records ==> r in h[Cut(h, b.from)..]) && (forall r :: r in h[Cut(h, b.to)..] ==> r in h[Cut(h, b.from)..])
    ensures exists r :: r in b.records && r.version == b.to
    ensures Cut(h, b.from) + |b.records| == Cut(h, b.to)
  {
    var f, g := Cut(h, b.from), Cut(h, b.to);
    assert b.records[|b.records| - 1] in b.records;
    forall r | r in b.records ensures r in h[f..] {
      var i :| 0 <= i < |b.records| && b.records[i] == r;
      assert h[f..][i] == r;
    }
    forall r | r in h[g..] ensures r in h[f..] {
      var i :| 0 <= i < |h[g..]| && h[g..][i] == r;
      assert h[f..][g - f + i] == r;
    }
  }

  /** The receiver's and the source's state after a batch round. */
  lemma BatchRound(cfg: Config, s: System, b: Batch)
    requires Increasing(Zero, s.src.history) && FoldInv(s.src.history, s.rcv.log, s.rcv.view) && s.rcv.work.Idle?
    requires s.src.Mark() == s.rcv.Mark() && s.rcv.Mark().Le(s.rcv.log.Last())
    requires PlanRepair(cfg.srcRepair, s.src.log, s.src.Mark(), s.src.session) == Ok(JournalPlan(b))
    requires b.from == s.src.Mark() && b.from.Lt(b.to) && b.to == LastOf(b.from, b.records) && b.records != []
    requires GoodBatch(s.src.history, b) && EncodeFault(cfg.srcRepair, b).None? && Compatible(cfg)
    requires AllValid(cfg.rcv, b.records) && Reaches(cfg, s, b.to) && b.to.Le(s.src.log.Last())
    requires Takes(cfg.rcv, s.rcv.blobs, s.rcv.log, s.src.history[Cut(s.src.history, s.rcv.log.Last())..])
    ensures var log := Extended(s.src.history, s.rcv.log, Cut(s.src.history, b.to));
            Round(cfg, s) ==
            System(s.src.(book := s.src.book[s.src.peer := b.to]),
                   s.rcv.(log := log, view := Fold(s.src.history, log.Last()), book := s.rcv.book[s.rcv.peer := b.to]),
                   s.net + {BatchFrame(b)} + {AckFrame(b.to)})
  {
    hide Takes, Fold, BatchFault, SelectBatch, Reaches, Increasing, GoodBatch, AllValid, Extended, EncodeFault, PlanRepair,
      Compatible, ApplyTimes, DoBegin, DoSend, DoFinish, DoTakeAck, Cut, AdvancedTimes;
    var rcv, n := s.rcv.(work := Taking(b, 0)), |b.records|;
    var taken := System(s.src, rcv, s.net + {BatchFrame(b)});
    BatchBegins(cfg, s, b);
    ApplyTimesShape(cfg, taken, n);
    AdvancedBatch(cfg.rcv, s.src.history, rcv, b, n);
    BatchInRest(s.src.history, b);
    BatchReached(s.src.history, s.rcv.log, b);
    SameReach(cfg, s, ApplyTimes(cfg, taken, n), b.to);
    AckRound(cfg, ApplyTimes(cfg, taken, n), b.to);
  }

  lemma SameReach(cfg: Config, s: System, t: System, v: Version)
    requires Reaches(cfg, s, v) && t.src == s.src && t.rcv.book == s.rcv.book && t.rcv.peer == s.rcv.peer
    ensures Reaches(cfg, t, v)
  {
  }

  /** The frame of a batch the source encodes is sent, decoded, and found to be the next one. */
  lemma BatchBegins(cfg: Config, s: System, b: Batch)
    requires s.rcv.work.Idle? && Compatible(cfg) && EncodeFault(cfg.srcRepair, b).None?
    requires PlanRepair(cfg.srcRepair, s.src.log, s.src.Mark(), s.src.session) == Ok(JournalPlan(b))
    requires b.from == s.rcv.Mark() && b.from.Lt(b.to)
    ensures DoBegin(cfg, DoSend(cfg, s), b) == System(s.src, s.rcv.(work := Taking(b, 0)), s.net + {BatchFrame(b)})
  {
    hide PlanRepair, EncodeFault, BatchFault;
  }

  /** After the whole batch the receiver's tail is at or beyond the batch's end. */
  lemma BatchReached(h: seq<Record>, log: Log, b: Batch)
    requires Increasing(Zero, h) && GoodBatch(h, b) && b.records != [] && b.to == LastOf(b.from, b.records) && log.Last().Le(Tip(h))
    ensures b.to.Le(Extended(h, log, Cut(h, b.to)).Last())
  {
    var k := Cut(h, b.to);
    BatchAt(h, b, |b.records| - 1);
    ExtendedTail(h, log, k);
    if k <= Cut(h, log.Last()) {
      CutBelow(h, log.Last(), k - 1);
    }
  }

  /** A batch round keeps both sides in step and moves them forward by at least one record. */
  lemma BatchRoundProgress(cfg: Config, s: System)
    requires InStep(cfg, s) && s.src.log.floor.Le(s.src.Mark()) && s.src.Mark().Lt(Tip(s.src.history))
    ensures InStep(cfg, Round(cfg, s)) && Left(Round(cfg, s)) < Left(s)
    ensures s.src.Mark().Lt(Round(cfg, s).src.Mark())
    ensures Round(cfg, s).src == s.src.(book := Round(cfg, s).src.book)
  {
    hide Storable, NormalForm, Normalize, ApplySnapshotTo, Takes, Fold, Compatible, FitsAlone, Reaches, SnapshotReady,
      GoodSnapshot, Increasing, DurableInv, BookFault, GoodFrame, PlanRepair, Extended, Round, Validate;
    var h := s.src.history;
    assert forall r :: r in Rest(s) ==> Deliverable(cfg, s, r) && FitsAlone(cfg.srcRepair, r);
    var b := PlannedBatch(cfg, s);
    BatchInRest(h, b);
    BatchDeliverable(cfg, s, b);
    BatchRound(cfg, s, b);
    RoundInv(cfg, s);
    var t := Round(cfg, s);
    BatchStillInStep(cfg, s, t, b);
  }

  lemma BatchDeliverable(cfg: Config, s: System, b: Batch)
    requires (forall r :: r in b.records ==> Deliverable(cfg, s, r)) && exists r :: r in b.records && r.version == b.to
    ensures AllValid(cfg.rcv, b.records) && Reaches(cfg, s, b.to)
  {
    hide FitsAlone, Validate, Reaches;
    forall i | 0 <= i < |b.records| ensures Valid(cfg.rcv, b.records[i]) {
      assert b.records[i] in b.records;
    }
  }

  lemma BatchStillInStep(cfg: Config, s: System, t: System, b: Batch)
    requires InStep(cfg, s) && s.src.log.floor.Le(s.src.Mark()) && Inv(cfg, t)
    requires GoodBatch(s.src.history, b) && b.from == s.src.Mark() && b.from.Lt(b.to)
    requires b.records != [] && b.to == LastOf(b.from, b.records)
    requires var log := Extended(s.src.history, s.rcv.log, Cut(s.src.history, b.to));
             && t.src == s.src.(book := s.src.book[s.src.peer := b.to])
             && t.rcv == s.rcv.(log := log, view := Fold(s.src.history, log.Last()), book := s.rcv.book[s.rcv.peer := b.to])
    ensures InStep(cfg, t) && Left(t) < Left(s)
  {
    hide Storable, Takes, Fold, Compatible, FitsAlone, Reaches, SnapshotReady, GoodSnapshot, Increasing, DurableInv, BookFault,
      GoodFrame, Extended, Validate;
    var h := s.src.history;
    BatchInRest(h, b);
    ExtendedTail(h, s.rcv.log, Cut(h, b.to));
    TakesExtended(cfg.rcv, s.rcv.blobs, h, s.rcv.log, Cut(h, b.to));
    forall r | r in Rest(t) ensures Deliverable(cfg, t, r) {
      assert r in Rest(s);
      StillReaches(cfg, s, t, b.to, r.version);
    }
  }

  // ---- a snapshot round ----

  /** Where a snapshot above the watermark leaves the receiver. */
  lemma SnapshotTaken(cfg: Config, s: System, c: Checkpoint, n: Checkpoint)
    requires s.rcv.work.Idle? && s.rcv.Mark().Lt(n.watermark) && SnapshotFrame(c) in s.net
    requires HeaderBytes <= cfg.rcv.maxJournalBytes && 0 <= cfg.rcv.maxJournalEntries
    requires DecodeSnapshot(cfg.rcvRepair, cfg.srcRepair.snapshotBytes(c), c) == Ok(n)
    requires ApplySnapshotTo(cfg.rcv, s.rcv.blobs, s.rcv.log, n).Ok?
    ensures var k := ApplySnapshotTo(cfg.rcv, s.rcv.blobs, s.rcv.log, n).value.0;
            DoSnapshot(cfg, s, c, false) ==
            s.(rcv := s.rcv.(log := Log(n.watermark, []), checkpoint := Some(k), stranded := false, view := ViewOf(k.records),
                             work := Installed(n.watermark)))
  {
    hide DecodeSnapshot, Normalize, Storable, NormalForm, CheckpointBytes;
    ApplySnapshotInstalls(cfg.rcv, s.rcv.blobs, s.rcv.log, n);
  }

  lemma SnapshotRound(cfg: Config, s: System, c: Checkpoint, n: Checkpoint)
    requires s.rcv.work.Idle? && s.src.Mark().Lt(n.watermark) && s.rcv.Mark().Lt(n.watermark) && n.watermark == c.watermark
    requires HeaderBytes <= cfg.rcv.maxJournalBytes && 0 <= cfg.rcv.maxJournalEntries
    requires PlanRepair(cfg.srcRepair, s.src.log, s.src.Mark(), s.src.session) == Ok(SnapshotPlan(s.src.Mark(), c))
    requires cfg.srcRepair.snapshotBytes(c) <= cfg.srcRepair.sessionBytes
    requires DecodeSnapshot(cfg.rcvRepair, cfg.srcRepair.snapshotBytes(c), c) == Ok(n)
    requires c.watermark.Le(s.src.log.Last()) && ApplySnapshotTo(cfg.rcv, s.rcv.blobs, s.rcv.log, n).Ok? && Reaches(cfg, s, c.watermark)
    ensures var k := ApplySnapshotTo(cfg.rcv, s.rcv.blobs, s.rcv.log, n).value.0;
            Round(cfg, s) ==
            System(s.src.(book := s.src.book[s.src.peer := c.watermark]),
                   s.rcv.(log := Log(c.watermark, []), checkpoint := Some(k), stranded := false, view := ViewOf(k.records),
                          book := s.rcv.book[s.rcv.peer := c.watermark]),
                   s.net + {SnapshotFrame(c)} + {AckFrame(c.watermark)})
  {
    hide PlanRepair, Reaches, DecodeSnapshot, ApplySnapshotTo, DoSnapshot, AckedBook;
    var sent := s.(net := s.net + {SnapshotFrame(c)});
    assert DoSend(cfg, s) == sent;
    SnapshotTaken(cfg, sent, c, n);
    SameReach(cfg, s, DoSnapshot(cfg, sent, c, false), c.watermark);
    AckRound(cfg, DoSnapshot(cfg, sent, c, false), c.watermark);
  }

  /** A snapshot round brings the receiver to the journal floor; it happens at most once. */
  lemma SnapshotRoundProgress(cfg: Config, s: System)
    requires InStep(cfg, s) && s.src.Mark().Lt(s.src.log.floor)
    ensures InStep(cfg, Round(cfg, s)) && Left(Round(cfg, s)) < Left(s)
    ensures s.src.Mark().Lt(Round(cfg, s).src.Mark())
    ensures Round(cfg, s).src == s.src.(book := Round(cfg, s).src.book)
  {
    hide Storable, NormalForm, Normalize, Takes, ApplySnapshotTo, FitsAlone, Fold, Reaches, Compatible, BookFault, DurableInv,
      Increasing, GoodFrame, Round, Validate, BoundSnapshot;
    var c := EncodeSnapshot(cfg.srcRepair, s.src.session.value).value;
    SnapshotFrameShape(cfg, s);
    var n := DecodeSnapshot(cfg.rcvRepair, cfg.srcRepair.snapshotBytes(c), c).value;
    SnapshotRound(cfg, s, c, n);
    RoundInv(cfg, s);
    var t := Round(cfg, s);
    CutMonotone(s.src.history, s.src.Mark(), s.src.log.floor);
    forall r | r in Rest(t) ensures Deliverable(cfg, t, r) {
      StillReaches(cfg, s, t, c.watermark, r.version);
    }
  }

  /** The frame of a snapshot that is due is at the floor, and so is what the receiver decodes from it. */
  lemma SnapshotFrameShape(cfg: Config, s: System)
    requires SourceInv(cfg.src, s.src) && s.src.session == s.src.checkpoint && s.src.Mark().Lt(s.src.log.floor) && SnapshotReady(cfg, s)
    ensures var c := EncodeSnapshot(cfg.srcRepair, s.src.session.value).value;
            && c.watermark == s.src.log.floor && c.watermark.Le(s.src.log.Last())
            && DecodeSnapshot(cfg.rcvRepair, cfg.srcRepair.snapshotBytes(c), c).value.watermark == c.watermark
            && PlanRepair(cfg.srcRepair, s.src.log, s.src.Mark(), s.src.session) == Ok(SnapshotPlan(s.src.Mark(), c))
  {
    hide Storable, NormalForm, Normalize, ApplySnapshotTo, Reaches, GoodSnapshot, SelectBatch;
    NormalizeOk(cfg.srcRepair.env, s.src.session.value);
    NormalizeOk(cfg.rcvRepair.env, EncodeSnapshot(cfg.srcRepair, s.src.session.value).value);
    TracksLast(s.src.history, s.src.log);
  }

  // ---- snapshots the receiver is already past ----

  /**
   * A snapshot that passes every limit on its way advances the round exactly when the receiver's journal does
   * not already reach past it; otherwise the round changes nothing but the network.
   */
  lemma SnapshotRoundAdvances(cfg: Config, s: System, c: Checkpoint)
    requires Inv(cfg, s) && s.rcv.work.Idle? && s.src.Mark() == s.rcv.Mark()
    requires PlanRepair(cfg.srcRepair, s.src.log, s.src.Mark(), s.src.session) == Ok(SnapshotPlan(s.src.Mark(), c))
    requires Passes(cfg, s, c)
    ensures s.src.Mark().Lt(Round(cfg, s).src.Mark()) <==> s.rcv.log.Last().Le(c.watermark)
    ensures c.watermark.Lt(s.rcv.log.Last()) ==> Round(cfg, s) == s.(net := s.net + {SnapshotFrame(c)})
  {
    hide Storable, NormalForm, ApplySnapshotTo, Fold, Reaches, BookFault, DurableInv, Round, BoundSnapshot, PlanRepair;
    PlannedSnapshot(cfg, s, c);
    var n := DecodeSnapshot(cfg.rcvRepair, cfg.srcRepair.snapshotBytes(c), c).value;
    SnapshotDecoded(cfg.rcvRepair, cfg.srcRepair.snapshotBytes(c), c);
    SnapshotAccepted(cfg.rcv, s.rcv.blobs, s.rcv.log, n);
    if s.rcv.log.Last().Le(c.watermark) {
      SnapshotRound(cfg, s, c, n);
    } else {
      SnapshotRefusedRound(cfg, s, c, n);
    }
  }

  /** Every limit a snapshot meets between the source's plan and the receiver's journal, and on the way back. */
  ghost predicate Passes(cfg: Config, s: System, c: Checkpoint) {
    && cfg.srcRepair.snapshotBytes(c) <= cfg.srcRepair.sessionBytes
    && DecodeSnapshot(cfg.rcvRepair, cfg.srcRepair.snapshotBytes(c), c).Ok?
    && var n := DecodeSnapshot(cfg.rcvRepair, cfg.srcRepair.snapshotBytes(c), c).value;
    && Normalize(cfg.rcv, n).Ok? && Verified(s.rcv.blobs, Normalize(cfg.rcv, n).value.records)
    && CheckpointBytes(cfg.rcv, Normalize(cfg.rcv, n).value).Ok? && Reaches(cfg, s, c.watermark)
  }

  lemma SnapshotDecoded(re: RepairEnv, bytes: nat, c: Checkpoint)
    requires DecodeSnapshot(re, bytes, c).Ok?
    ensures DecodeSnapshot(re, bytes, c).value.watermark == c.watermark
  {
    hide Normalize;
    NormalizeOk(re.env, c);
  }

  lemma PlannedSnapshot(cfg: Config, s: System, c: Checkpoint)
    requires SourceInv(cfg.src, s.src)
    requires PlanRepair(cfg.srcRepair, s.src.log, s.src.Mark(), s.src.session) == Ok(SnapshotPlan(s.src.Mark(), c))
    ensures s.src.Mark().Lt(c.watermark) && c.watermark == s.src.log.floor && c.watermark.Le(s.src.log.Last())
  {
    hide Normalize, Storable, NormalForm;
    NormalizeOk(cfg.srcRepair.env, s.src.session.value);
    TracksLast(s.src.history, s.src.log);
  }

  lemma SnapshotAccepted(env: Env, blobs: set<seq<byte>>, log: Log, c: Checkpoint)
    requires Normalize(env, c).Ok? && Verified(blobs, Normalize(env, c).value.records)
    requires CheckpointBytes(env, Normalize(env, c).value).Ok?
    ensures ApplySnapshotTo(env, blobs, log, c).Ok? <==> log.Last().Le(c.watermark)
  {
    NormalizeOk(env, c);
    NormalizeMeaning(env, Normalize(env, c).value);
  }

  lemma SnapshotRefusedRound(cfg: Config, s: System, c: Checkpoint, n: Checkpoint)
    requires s.rcv.work.Idle? && s.src.Mark() == s.rcv.Mark() && s.src.Mark().Lt(c.watermark) && n.watermark == c.watermark
    requires PlanRepair(cfg.srcRepair, s.src.log, s.src.Mark(), s.src.session) == Ok(SnapshotPlan(s.src.Mark(), c))
    requires cfg.srcRepair.snapshotBytes(c) <= cfg.srcRepair.sessionBytes
    requires DecodeSnapshot(cfg.rcvRepair, cfg.srcRepair.snapshotBytes(c), c) == Ok(n)
    requires ApplySnapshotTo(cfg.rcv, s.rcv.blobs, s.rcv.log, n).Err?
    requires forall f :: f in s.net ==> GoodFrame(s.src.history, s.rcv.Mark(), f)
    ensures Round(cfg, s) == s.(net := s.net + {SnapshotFrame(c)})
  {
    hide PlanRepair, DecodeSnapshot, ApplySnapshotTo;
    var sent := s.(net := s.net + {SnapshotFrame(c)});
    assert DoSend(cfg, s) == sent;
    assert DoSnapshot(cfg, sent, c, false) == sent;
    assert DoFinish(cfg, sent, true, false) == sent;
    assert AckFrame(c.watermark) in s.net ==> GoodFrame(s.src.history, s.rcv.Mark(), AckFrame(c.watermark));
  }

  // ---- convergence ----

  /** Every round strictly advances a source that has more to send, and changes nothing else at the source. */
  lemma RoundProgress(cfg: Config, s: System)
    requires InStep(cfg, s) && s.src.Mark().Lt(Tip(s.src.history))
    ensures InStep(cfg, Round(cfg, s)) && Left(Round(cfg, s)) < Left(s)
    ensures s.src.Mark().Lt(Round(cfg, s).src.Mark())
    ensures Round(cfg, s).src == s.src.(book := Round(cfg, s).src.book)
  {
    if s.src.Mark().Lt(s.src.log.floor) {
      SnapshotRoundProgress(cfg, s);
    } else {
      BatchRoundProgress(cfg, s);
    }
  }

  /** A step that keeps ok and lowers left until done holds gets there in at most left steps. */
  lemma {:induction false} IterateToDone<S(!new)>(ok: S -> bool, done: S -> bool, left: S -> nat, step: S -> S, s: S, n: nat)
    requires ok(s) && forall x :: ok(x) && !done(x) ==> ok(step(x)) && left(step(x)) < left(x)
    ensures exists k: nat ::
              && k <= n && ok(Iterate(step, s, k))
              && (done(Iterate(step, s, k)) || left(Iterate(step, s, k)) + n <= left(s))
  {
    if n == 0 {
      assert Iterate(step, s, 0) == s;
    } else {
      IterateToDone(ok, done, left, step, s, n - 1);
      var k: nat :| k <= n - 1 && ok(Iterate(step, s, k))
                    && (done(Iterate(step, s, k)) || left(Iterate(step, s, k)) + (n - 1) <= left(s));
      if !done(Iterate(step, s, k)) {
        assert Iterate(step, s, k + 1) == step(Iterate(step, s, k));
      }
    }
  }

  /** In step, with the source otherwise as it was in from. */
  ghost predicate Along(cfg: Config, from: System, s: System) {
    InStep(cfg, s) && s.src == from.src.(book := s.src.book)
  }

  lemma AlongProgress(cfg: Config, from: System, s: System)
    requires Along(cfg, from, s) && s.src.Mark().Lt(Tip(from.src.history))
    ensures Along(cfg, from, Round(cfg, s)) && Left(Round(cfg, s)) < Left(s)
  {
    RoundProgress(cfg, s);
  }

  lemma RoundsToTip(cfg: Config, s: System) returns (n: nat)
    requires InStep(cfg, s)
    ensures n <= Left(s) && Along(cfg, s, Rounds(cfg, s, n))
    ensures !Rounds(cfg, s, n).src.Mark().Lt(Tip(s.src.history))
  {
    var ok := (x: System) => Along(cfg, s, x);
    var done := (x: System) => !x.src.Mark().Lt(Tip(s.src.history));
    var left := (x: System) => Left(x);
    var step := (x: System) => Round(cfg, x);
    forall x | ok(x) && !done(x) ensures ok(step(x)) && left(step(x)) < left(x) {
      AlongProgress(cfg, s, x);
    }
    IterateToDone(ok, done, left, step, s, Left(s));
    n :| n <= Left(s) && ok(Iterate(step, s, n))
         && (done(Iterate(step, s, n)) || left(Iterate(step, s, n)) + Left(s) <= left(s));
  }

  /**
   * Convergence: from any state in step, after at most the remaining records plus one rounds the source's
   * watermark for the receiver, the receiver's own watermark and its journal tail are all the source's
   * tail, and the two stores are equal.
   */
  lemma Convergence(cfg: Config, s: System) returns (n: nat)
    requires InStep(cfg, s)
    ensures n <= |s.src.history| - Cut(s.src.history, s.src.Mark()) + 1
    ensures var t := Rounds(cfg, s, n);
            && t.src == s.src.(book := t.src.book) && t.src.Mark() == Tip(s.src.history)
            && t.rcv.Mark() == t.rcv.log.Last() == Tip(s.src.history)
            && t.rcv.view == Meaning(t.src.checkpoint, t.src.log) == Fold(s.src.history, Tip(s.src.history))
  {
    hide SourceInv, ReceiverInv, Compatible, SnapshotReady, Takes, Deliverable, GoodFrame, BookFault, Round, Fold, Iterate;
    n := RoundsToTip(cfg, s);
    InvSafe(cfg, Rounds(cfg, s, n));
  }

  // ---- states in step ----

  /** Limits at the source that are no larger than its session's and the receiver's make the two compatible. */
  lemma SmallerLimits(cfg: Config)
    requires cfg.srcRepair.env == cfg.rcvRepair.env && cfg.srcRepair.maxRecords <= cfg.rcvRepair.maxRecords
    requires cfg.srcRepair.maxLogicalKeyBytes <= cfg.rcvRepair.maxLogicalKeyBytes
    requires cfg.srcRepair.maxMetadataBytes <= cfg.rcvRepair.maxMetadataBytes
    requires cfg.srcRepair.maxFrameBytes <= cfg.srcRepair.sessionBytes && cfg.srcRepair.maxFrameBytes <= cfg.rcvRepair.maxFrameBytes
    ensures Compatible(cfg)
  {
    hide ScanFault, BatchFault, AllValid, Increasing, LogicalBytes, MetadataBytes;
    forall b | EncodeFault(cfg.srcRepair, b).None? ensures BatchFault(cfg.rcvRepair, b).None? {
      BatchFaultMeaning(cfg.srcRepair, b);
      BatchFaultMeaning(cfg.rcvRepair, b);
    }
  }

  /** A new source and a new receiver are in step. */
  lemma FreshInStep(cfg: Config, s: System)
    requires Init(cfg, s) && Compatible(cfg)
    ensures InStep(cfg, s)
  {
    hide Compatible, Takes, Inv, FitsAlone, Cut, SnapshotReady, Reaches;
    InitInv(cfg, s);
    TakesNothing(cfg.rcv, s.rcv.blobs, Zero);
    assert s.src.history[Cut(s.src.history, s.rcv.log.Last())..] == [] && Rest(s) == [];
  }

  lemma TakesNothing(env: Env, blobs: set<seq<byte>>, floor: Version)
    requires HeaderBytes <= env.maxJournalBytes && 0 <= env.maxJournalEntries
    ensures Takes(env, blobs, Log(floor, []), [])
  {
    assert |EncodeHeader(env, floor)| == HeaderBytes;
  }

  lemma RestAfterMutation(h: seq<Record>, r: Record, v: Version)
    requires Increasing(Zero, h) && v.Le(Tip(h)) && Tip(h).Lt(r.version)
    ensures (h + [r])[Cut(h + [r], v)..] == h[Cut(h, v)..] + [r]
  {
    hide Fold;
    CutGrow(h, r, v);
    CutMeaning(h, v);
  }

  /** A mutation that can be delivered and that the receiver has room for keeps both sides in step. */
  lemma MutateInStep(cfg: Config, s: System, r: Record)
    requires InStep(cfg, s) && AppendTo(cfg.src, s.src.log, r).Ok? && Deliverable(cfg, s, r)
    requires if s.src.Mark().Lt(s.src.log.floor) then Takes(cfg.rcv, s.rcv.blobs, Log(s.src.log.floor, []), Rest(s) + [r])
             else Takes(cfg.rcv, s.rcv.blobs, s.rcv.log, s.src.history[Cut(s.src.history, s.rcv.log.Last())..] + [r])
    ensures InStep(cfg, DoMutate(cfg, s, r))
  {
    hide SnapshotReady, FitsAlone, Takes, AppendTo, Compatible, Reaches, Validate, Inv, Rest;
    MutatePreserves(cfg, s, r);
    MutationRest(cfg, s, r);
    var t := DoMutate(cfg, s, r);
    SameReady(cfg, s, t);
    forall x | x in Rest(t) ensures Deliverable(cfg, t, x) {
      assert x in Rest(s) || x == r;
      SameDeliverable(cfg, s, t, x);
    }
  }

  lemma MutationRest(cfg: Config, s: System, r: Record)
    requires Inv(cfg, s) && AppendTo(cfg.src, s.src.log, r).Ok?
    ensures var t, h, v := DoMutate(cfg, s, r), s.src.history, s.rcv.log.Last();
            && t.src == s.src.(history := h + [r], log := t.src.log) && t.src.log.floor == s.src.log.floor
            && Rest(t) == Rest(s) + [r] && (h + [r])[Cut(h + [r], v)..] == h[Cut(h, v)..] + [r]
  {
    hide AppendTo, ReceiverInv, GoodFrame, Storable, Matches, GoodSnapshot, BookFault, Fold;
    MutateSource(cfg.src, s.src, r);
    AppendFloor(cfg.src, s.src.log, r);
    InvSafe(cfg, s);
    RestAfterMutation(s.src.history, r, Start(s));
    RestAfterMutation(s.src.history, r, s.rcv.log.Last());
  }

  lemma SameDeliverable(cfg: Config, s: System, t: System, r: Record)
    requires Deliverable(cfg, s, r) && t.src.book == s.src.book && t.src.peer == s.src.peer && t.rcv == s.rcv
    ensures Deliverable(cfg, t, r)
  {
    hide FitsAlone, BookTakes, Validate;
  }

  lemma SameReady(cfg: Config, s: System, t: System)
    requires t.src.book == s.src.book && t.src.peer == s.src.peer && t.src.session == s.src.session
    requires t.src.log.floor == s.src.log.floor && t.rcv == s.rcv
    ensures SnapshotReady(cfg, s) ==> SnapshotReady(cfg, t)
  {
    hide EncodeSnapshot, DecodeSnapshot, ApplySnapshotTo, BookTakes;
  }

  lemma AppendFloor(env: Env, log: Log, r: Record)
    requires AppendTo(env, log, r).Ok?
    ensures AppendTo(env, log, r).value.floor == log.floor
  {
  }

  /** Room behind a journal is room behind an empty journal at a later floor. */
  lemma TakesAbove(env: Env, blobs: set<seq<byte>>, log: Log, h: seq<Record>, v: Version, w: Version)
    requires Increasing(Zero, h) && v.Le(w) && Takes(env, blobs, log, h[Cut(h, v)..])
    ensures Takes(env, blobs, Log(w, []), h[Cut(h, w)..])
  {
    var c, n := Cut(h, v), Cut(h, w);
    CutMonotone(h, v, w);
    SliceOfRest(h, c, n - c, |h| - c);
    TakesPrefix(env, blobs, log, h[c..], n - c);
  }

  /** A compaction, and a new session with its checkpoint, keep both sides in step if the snapshot is ready where it is due. */
  lemma CompactInStep(cfg: Config, s: System, q: CompactionRequest)
    requires InStep(cfg, s) && q.base == s.src.checkpoint && CompactTo(cfg.src, s.src.log, q).Ok?
    requires var t := DoCompact(cfg, s, q);
             s.src.Mark().Lt(q.watermark) ==> SnapshotReady(cfg, t.(src := t.src.(session := t.src.checkpoint)))
    ensures var t := DoCompact(cfg, s, q); InStep(cfg, t.(src := t.src.(session := t.src.checkpoint)))
  {
    hide EncodeSnapshot, DecodeSnapshot, ApplySnapshotTo, FitsAlone, Takes, CompactTo, Compatible, BookTakes, Validate, BookFault,
      ReceiverInv, GoodFrame, Storable, Matches, GoodSnapshot;
    var w := DoCompact(cfg, s, q);
    var t := w.(src := w.src.(session := w.src.checkpoint));
    CompactPreserves(cfg, s, q);
    AttachPreserves(cfg, w);
    CompactFloor(cfg.src, s.src, q);
    RestShrinks(s.src.history, Start(s), Start(t));
    forall x | x in Rest(t) ensures Deliverable(cfg, t, x) {
      assert x in Rest(s);
    }
    if s.src.Mark().Lt(q.watermark) {
      SnapshotPastTail(cfg, t);
      if s.src.Mark().Lt(s.src.log.floor) {
        TakesAbove(cfg.rcv, s.rcv.blobs, Log(s.src.log.floor, []), s.src.history, s.src.log.floor, q.watermark);
      } else {
        TakesAbove(cfg.rcv, s.rcv.blobs, s.rcv.log, s.src.history, s.rcv.log.Last(), q.watermark);
      }
    }
  }

  lemma CompactFloor(env: Env, src: Source, q: CompactionRequest)
    requires SourceInv(env, src) && q.base == src.checkpoint && CompactTo(env, src.log, q).Ok?
    ensures CompactTo(env, src.log, q).value.1.floor == q.watermark && src.log.floor.Lt(q.watermark)
    ensures CompactTo(env, src.log, q).value.0.watermark == q.watermark
  {
    hide NormalForm, ApplyAll;
    CompactionOutput(env, src.checkpoint, src.log, q);
  }

  lemma RestShrinks(h: seq<Record>, v: Version, w: Version)
    requires Increasing(Zero, h) && v.Le(w)
    ensures forall r :: r in h[Cut(h, w)..] ==> r in h[Cut(h, v)..]
  {
    CutMonotone(h, v, w);
    var c, n := Cut(h, v), Cut(h, w);
    forall r | r in h[n..] ensures r in h[c..] {
      var i :| 0 <= i < |h[n..]| && h[n..][i] == r;
      assert h[c..][n - c + i] == r;
    }
  }

  /** A snapshot that can be installed is not behind the receiver's tail. */
  lemma SnapshotPastTail(cfg: Config, s: System)
    requires SnapshotReady(cfg, s) && s.src.session.value.watermark == s.src.log.floor
    requires HeaderBytes <= cfg.rcv.maxJournalBytes && 0 <= cfg.rcv.maxJournalEntries
    ensures s.rcv.log.Last().Le(s.src.log.floor)
  {
    hide Normalize, Storable, NormalForm, Reaches, CheckpointBytes;
    var c := EncodeSnapshot(cfg.srcRepair, s.src.session.value).value;
    NormalizeOk(cfg.srcRepair.env, s.src.session.value);
    NormalizeOk(cfg.rcvRepair.env, c);
    ApplySnapshotInstalls(cfg.rcv, s.rcv.blobs, s.rcv.log, DecodeSnapshot(cfg.rcvRepair, cfg.srcRepair.snapshotBytes(c), c).value);
  }

  /**
   * A new peer of a compacted source is in step whatever the source's history below the floor was, and whether or
   * not the peer could hold it: only the snapshot and the records above the floor have to pass.
   */
  lemma NewPeerInStep(cfg: Config, src: Source, rcv: Receiver, c: Checkpoint)
    requires SourceInv(cfg.src, src) && src.session == src.checkpoint && Zero.Lt(src.log.floor)
    requires HeaderBytes <= cfg.rcv.maxJournalBytes && 0 <= cfg.rcv.maxJournalEntries
    requires rcv.log == Log(Zero, []) && rcv.checkpoint.None? && !rcv.stranded && rcv.view == map[] && rcv.work.Idle?
    requires NewPeers(cfg, System(src, rcv, {})) && Compatible(cfg)
    requires PlanRepair(cfg.srcRepair, src.log, Zero, src.session) == Ok(SnapshotPlan(Zero, c)) && Passes(cfg, System(src, rcv, {}), c)
    requires forall r :: r in Rest(System(src, rcv, {})) ==> Deliverable(cfg, System(src, rcv, {}), r)
    requires Takes(cfg.rcv, rcv.blobs, Log(src.log.floor, []), Rest(System(src, rcv, {})))
    ensures InStep(cfg, System(src, rcv, {}))
  {
    hide Normalize, Storable, NormalForm, Reaches, CheckpointBytes, Takes, Deliverable, Compatible, GoodSnapshot, BookFault, Increasing,
      BoundSnapshot, Verified;
    var s := System(src, rcv, {});
    NewReceiverInv(cfg.rcv, src.history, rcv);
    PlannedSnapshot(cfg, s, c);
    SnapshotDecoded(cfg.rcvRepair, cfg.srcRepair.snapshotBytes(c), c);
    SnapshotAccepted(cfg.rcv, rcv.blobs, rcv.log, DecodeSnapshot(cfg.rcvRepair, cfg.srcRepair.snapshotBytes(c), c).value);
  }

  lemma NewReceiverInv(env: Env, h: seq<Record>, rcv: Receiver)
    requires HeaderBytes <= env.maxJournalBytes && 0 <= env.maxJournalEntries
    requires rcv.log == Log(Zero, []) && rcv.checkpoint.None? && rcv.view == map[] && rcv.work.Idle? && rcv.Mark() == Zero
    requires Increasing(Zero, h)
    ensures ReceiverInv(env, h, rcv)
  {
    CutUnique(h, Zero, 0);
    assert |EncodeHeader(env, Zero)| == HeaderBytes;
    assert h[..0] == [];
  }
}
