/** Receivers whose journal is past the snapshot they would need: how they arise, that they stay, and how to rule them out. */
module Stalls {
  import opened Orders
  import opened Bytes
  import opened Versions
  import opened Outcomes
  import opened Records
  import opened Checkpoints
  import opened Merging
  import opened Codec
  import opened Logs
  import opened Repair
  import opened Watermarks
  import opened History
  import opened Applying
  import opened Protocol
  import opened Convergence

  // ---- a stalled pair stays stalled ----

  /** The snapshot the source keeps planning passes every limit, but the receiver's journal is past it. */
  ghost predicate Stalled(cfg: Config, s: System, c: Checkpoint) {
    && Inv(cfg, s) && s.rcv.work.Idle? && s.src.Mark() == s.rcv.Mark()
    && PlanRepair(cfg.srcRepair, s.src.log, s.src.Mark(), s.src.session) == Ok(SnapshotPlan(s.src.Mark(), c))
    && Passes(cfg, s, c) && c.watermark.Lt(s.rcv.log.Last())
  }

  lemma StalledRound(cfg: Config, s: System, c: Checkpoint)
    requires Stalled(cfg, s, c)
    ensures Round(cfg, s) == s.(net := s.net + {SnapshotFrame(c)}) && Stalled(cfg, Round(cfg, s), c)
  {
    hide Inv, PlanRepair, Round, DecodeSnapshot, Reaches, Normalize, CheckpointBytes, Verified;
    SnapshotRoundAdvances(cfg, s, c);
    RoundInv(cfg, s);
    SameReach(cfg, s, Round(cfg, s), c.watermark);
  }

  /** Any number of rounds leaves the books, the journals and the stores as they were. */
  lemma {:induction false} StalledForever(cfg: Config, s: System, c: Checkpoint, n: nat)
    requires Stalled(cfg, s, c) && n > 0
    ensures Rounds(cfg, s, n) == s.(net := s.net + {SnapshotFrame(c)}) && Stalled(cfg, Rounds(cfg, s, n), c)
  {
    hide Stalled, Round;
    if n == 1 {
      StalledRound(cfg, s, c);
      assert Iterate(x => Round(cfg, x), s, 0) == s;
    } else {
      StalledForever(cfg, s, c, n - 1);
      StalledRound(cfg, Rounds(cfg, s, n - 1), c);
    }
  }

  // ---- a run into a stall ----

  /** Two records reach the receiver's journal, but the receiver stops before it acknowledges them. */
  ghost predicate TwoRecords(cfg: Config, s: System, r1: Record, r2: Record) {
    var b := Batch(Zero, r2.version, false, [r1, r2]);
    && Init(cfg, s) && AppendTo(cfg.src, Log(Zero, []), r1).Ok? && AppendTo(cfg.src, Log(Zero, [r1]), r2).Ok?
    && EncodeFault(cfg.srcRepair, Batch(Zero, r1.version, true, [r1])).None? && EncodeFault(cfg.srcRepair, b).None?
    && Compatible(cfg) && Takes(cfg.rcv, s.rcv.blobs, Log(Zero, []), [r1, r2])
  }

  /** A compaction at the first of them, while the second is already the source's tail. */
  function BelowTail(r1: Record): CompactionRequest {
    CompactionRequest(r1.version, [r1], None, [])
  }

  function IntoStall(r1: Record, r2: Record): seq<Step> {
    [Mutate(r1), Mutate(r2), SendRepair, BeginBatch(Batch(Zero, r2.version, false, [r1, r2])), ApplyNext, ApplyNext, Restart,
     CompactSource(BelowTail(r1)), Attach]
  }

  lemma RunPrefix(cfg: Config, s: System, steps: seq<Step>, i: nat)
    requires i < |steps|
    ensures Run(cfg, s, steps[..i + 1]) == After(cfg, Run(cfg, s, steps[..i]), steps[i])
  {
    hide After;
    assert steps[..i + 1] == steps[..i] + [steps[i]];
    RunStep(cfg, s, steps[..i], steps[i]);
  }

  lemma MutateStep(cfg: Config, s: System, r: Record)
    requires AppendTo(cfg.src, s.src.log, r).Ok?
    ensures After(cfg, s, Mutate(r)) ==
            s.(src := s.src.(history := s.src.history + [r], log := AppendTo(cfg.src, s.src.log, r).value))
  {
    hide AppendTo;
  }

  lemma AppendsTo(env: Env, log: Log, r: Record)
    requires AppendTo(env, log, r).Ok?
    ensures AppendTo(env, log, r).value == Log(log.floor, log.records + [r]) && log.Last().Lt(r.version)
  {
  }

  /** The source before anything is sent. */
  function Written(s: System, r1: Record, r2: Record): System {
    s.(src := s.src.(history := [r1, r2], log := Log(Zero, [r1, r2])))
  }

  lemma TwoMutations(cfg: Config, s: System, r1: Record, r2: Record)
    requires TwoRecords(cfg, s, r1, r2)
    ensures Run(cfg, s, IntoStall(r1, r2)[..2]) == Written(s, r1, r2) && Increasing(Zero, [r1, r2])
  {
    hide Compatible, EncodeFault, Takes, AppendTo, After, Run;
    var steps := IntoStall(r1, r2);
    RunPrefix(cfg, s, steps, 0);
    RunPrefix(cfg, s, steps, 1);
    assert steps[..0] == [] && Run(cfg, s, []) == s by {
      RunNothing(cfg, s);
    }
    assert [] + [r1] == [r1] && [r1] + [r2] == [r1, r2];
    AppendsTo(cfg.src, Log(Zero, []), r1);
    AppendsTo(cfg.src, Log(Zero, [r1]), r2);
    MutateStep(cfg, s, r1);
    MutateStep(cfg, s.(src := s.src.(history := [r1], log := Log(Zero, [r1]))), r2);
  }

  lemma TwoSent(cfg: Config, s: System, r1: Record, r2: Record)
    requires TwoRecords(cfg, s, r1, r2) && Increasing(Zero, [r1, r2])
    ensures PlanRepair(cfg.srcRepair, Log(Zero, [r1, r2]), Zero, None) == Ok(JournalPlan(Batch(Zero, r2.version, false, [r1, r2])))
  {
    hide Compatible, EncodeFault, Takes, Validate, HasRoom;
    var rs, encode := [r1, r2], EncoderOf(cfg.srcRepair);
    CutUnique(rs, Zero, 0);
    assert rs[0..] == rs && rs[..1] == [r1] && rs[..2] == rs;
    assert Candidate(Zero, rs, 1) == Batch(Zero, r1.version, true, [r1]);
    assert Candidate(Zero, rs, 2) == Batch(Zero, r2.version, false, rs);
    assert Greedy(encode, Zero, rs, 2) == 2 && Greedy(encode, Zero, rs, 1) == 2 && Greedy(encode, Zero, rs, 0) == 2;
  }

  lemma TwoFolded(r1: Record, r2: Record)
    requires Increasing(Zero, [r1, r2])
    ensures var h, b := [r1, r2], Batch(Zero, r2.version, false, [r1, r2]);
            && Cut(h, Zero) == 0 && Cut(h, r2.version) == 2 && Tip(h) == r2.version && Fold(h, Zero) == map[]
            && GoodBatch(h, b) && Extended(h, Log(Zero, []), 2) == Log(Zero, h) && Zero.Lt(r2.version)
  {
    var h := [r1, r2];
    assert h[0].version.Lt(h[1].version) && Zero.Lt(h[1].version);
    CutUnique(h, Zero, 0);
    CutUnique(h, r2.version, 2);
    assert h[..0] == [] && h[0..2] == h && [] + h == h;
  }

  /** Sent, begun, both records applied. */
  lemma TwoTaken(cfg: Config, s: System, r1: Record, r2: Record)
    requires TwoRecords(cfg, s, r1, r2) && Increasing(Zero, [r1, r2])
    ensures var w, b := Written(s, r1, r2), Batch(Zero, r2.version, false, [r1, r2]);
            var begun := DoBegin(cfg, DoSend(cfg, w), b);
            && begun == System(w.src, w.rcv.(work := Taking(b, 0)), w.net + {BatchFrame(b)})
            && var rcv := Advanced(cfg.rcv, Advanced(cfg.rcv, begun.rcv));
            && rcv == begun.rcv.(log := Log(Zero, [r1, r2]), view := rcv.view, work := Taking(b, 2))
  {
    hide Compatible, EncodeFault, Takes, AppendTo, PlanRepair, Fold, Extended, GoodBatch, Advanced, Increasing, Cut;
    var w, b, h := Written(s, r1, r2), Batch(Zero, r2.version, false, [r1, r2]), [r1, r2];
    TwoSent(cfg, s, r1, r2);
    TwoFolded(r1, r2);
    BatchBegins(cfg, w, b);
    assert h[0..] == h;
    TakesValid(cfg.rcv, s.rcv.blobs, Log(Zero, []), h);
    var rcv := w.rcv.(work := Taking(b, 0));
    AdvancedBatch(cfg.rcv, h, rcv, b, 2);
    assert AdvancedTimes(cfg.rcv, rcv, 2) == Advanced(cfg.rcv, Advanced(cfg.rcv, rcv)) by {
      assert AdvancedTimes(cfg.rcv, rcv, 1) == Advanced(cfg.rcv, AdvancedTimes(cfg.rcv, rcv, 0));
    }
  }

  lemma TakesValid(env: Env, blobs: set<seq<byte>>, log: Log, rs: seq<Record>)
    requires Takes(env, blobs, log, rs)
    ensures AllValid(env, rs)
  {
  }

  lemma TwoStopped(cfg: Config, s: System, r1: Record, r2: Record)
    requires TwoRecords(cfg, s, r1, r2)
    ensures var t := Run(cfg, s, IntoStall(r1, r2)[..7]);
            && t.src == Written(s, r1, r2).src && t.rcv.log == Log(Zero, [r1, r2]) && t.rcv.work.Idle?
            && t.rcv.book == s.rcv.book && t.rcv.peer == s.rcv.peer
  {
    hide Compatible, EncodeFault, Takes, AppendTo, Run, PlanRepair, Fold, Advanced, DoBegin, DoSend, DoMutate, DoCompact, Meaning,
      Increasing, Written, DoSnapshot, DoFinish, DoTakeAck;
    var steps := IntoStall(r1, r2);
    TwoMutations(cfg, s, r1, r2);
    TwoTaken(cfg, s, r1, r2);
    RunPrefix(cfg, s, steps, 2);
    RunPrefix(cfg, s, steps, 3);
    RunPrefix(cfg, s, steps, 4);
    RunPrefix(cfg, s, steps, 5);
    RunPrefix(cfg, s, steps, 6);
    assert Written(s, r1, r2).rcv == s.rcv by {
      WrittenReceiver(s, r1, r2);
    }
  }

  lemma WrittenReceiver(s: System, r1: Record, r2: Record)
    ensures Written(s, r1, r2).rcv == s.rcv
  {
  }

  /** Where the run leads: the receiver past the new floor, both watermarks still zero. */
  lemma IntoStallRun(cfg: Config, s: System, r1: Record, r2: Record)
    requires TwoRecords(cfg, s, r1, r2) && CompactTo(cfg.src, Log(Zero, [r1, r2]), BelowTail(r1)).Ok?
    ensures var t := Run(cfg, s, IntoStall(r1, r2));
            && t.rcv.work.Idle? && t.src.session == t.src.checkpoint
            && t.src.Mark() == t.rcv.Mark() == Zero && t.src.log.floor == r1.version
            && Zero.Lt(r1.version) && r1.version.Lt(r2.version) && t.rcv.log.Last() == r2.version
  {
    hide Compatible, EncodeFault, Takes, AppendTo, Run, PlanRepair, Inv, CompactTo, DoMutate, DoSend, DoBegin, DoSnapshot,
      DoFinish, DoTakeAck, Advanced, Meaning, After;
    var steps := IntoStall(r1, r2);
    TwoStopped(cfg, s, r1, r2);
    AppendsTo(cfg.src, Log(Zero, []), r1);
    AppendsTo(cfg.src, Log(Zero, [r1]), r2);
    RunPrefix(cfg, s, steps, 7);
    RunPrefix(cfg, s, steps, 8);
    assert steps[..9] == steps;
    RepairSafety(cfg, s, steps[..7]);
    CompactAndAttach(cfg, Run(cfg, s, steps[..7]), BelowTail(r1));
  }

  /**
   * A compaction below the tail makes a stall reachable: a receiver that stopped between its journal and its
   * watermark is then past the snapshot while its watermark is below it. compact itself aims at the tail it
   * reads first (lifecycle_cli.go:375), so a put that lands between that read and the compaction is enough.
   */
  lemma StallReachable(cfg: Config, s: System, r1: Record, r2: Record, c: Checkpoint)
    requires TwoRecords(cfg, s, r1, r2) && CompactTo(cfg.src, Log(Zero, [r1, r2]), BelowTail(r1)).Ok?
    ensures var t := Run(cfg, s, IntoStall(r1, r2));
            && Inv(cfg, t) && t.src.log.floor == r1.version && t.rcv.log.Last() == r2.version && t.src.Mark() == Zero
            && (PlanRepair(cfg.srcRepair, t.src.log, Zero, t.src.session) == Ok(SnapshotPlan(Zero, c)) && Passes(cfg, t, c) ==>
                  Stalled(cfg, t, c))
  {
    hide Run, PlanRepair, Inv, CompactTo, Passes, TwoRecords;
    IntoStallRun(cfg, s, r1, r2);
    StartsInit(cfg, s, r1, r2);
    RepairSafety(cfg, s, IntoStall(r1, r2));
    var t := Run(cfg, s, IntoStall(r1, r2));
    if PlanRepair(cfg.srcRepair, t.src.log, Zero, t.src.session) == Ok(SnapshotPlan(Zero, c)) {
      StallWatermark(cfg, t, c);
    }
  }

  lemma StartsInit(cfg: Config, s: System, r1: Record, r2: Record)
    requires TwoRecords(cfg, s, r1, r2)
    ensures Init(cfg, s)
  {
  }

  lemma CompactAndAttach(cfg: Config, s: System, q: CompactionRequest)
    requires Inv(cfg, s) && q.base == s.src.checkpoint && CompactTo(cfg.src, s.src.log, q).Ok?
    ensures var t := After(cfg, After(cfg, s, CompactSource(q)), Attach);
            && t.rcv == s.rcv && t.src == s.src.(log := t.src.log, checkpoint := t.src.checkpoint, session := t.src.checkpoint)
            && t.src.log.floor == q.watermark
  {
    hide ReceiverInv, BooksInv, GoodFrame, CompactTo, SourceInv;
    CompactFloor(cfg.src, s.src, q);
  }

  lemma StallWatermark(cfg: Config, s: System, c: Checkpoint)
    requires Inv(cfg, s) && s.src.Mark() == Zero
    requires PlanRepair(cfg.srcRepair, s.src.log, Zero, s.src.session) == Ok(SnapshotPlan(Zero, c))
    ensures c.watermark == s.src.log.floor
  {
    hide ReceiverInv, BooksInv, GoodFrame, PlanRepair;
    PlannedSnapshot(cfg, s, c);
  }

  // ---- compactions at the tail rule stalls out ----

  /** Every compaction of the run is at the source's tail of the moment. */
  ghost predicate AtTail(cfg: Config, s: System, steps: seq<Step>) {
    steps == [] ||
    (var before, step := Run(cfg, s, steps[..|steps| - 1]), steps[|steps| - 1];
     AtTail(cfg, s, steps[..|steps| - 1]) && (step.CompactSource? ==> step.q.watermark == before.src.log.Last()))
  }

  /** A batch lies on one side of the floor. */
  predicate OneSide(floor: Version, b: Batch) {
    b.to.Le(floor) || floor.Le(b.from)
  }

  ghost predicate FramesInv(s: System) {
    && (forall b :: BatchFrame(b) in s.net ==> OneSide(s.src.log.floor, b))
    && (forall c :: SnapshotFrame(c) in s.net ==> c.watermark.Le(s.src.log.floor))
    && (s.src.session.Some? ==> s.src.session.value.watermark.Le(s.src.log.floor))
  }

  /** A receiver whose watermark is below the floor has nothing above it in its journal or in hand. */
  ghost predicate NotPast(s: System) {
    && (s.rcv.Mark().Lt(s.src.log.floor) ==> s.rcv.log.Last().Le(s.src.log.floor))
    && (s.rcv.work.Taking? ==> OneSide(s.src.log.floor, s.rcv.work.batch) && s.rcv.work.batch.from.Le(s.rcv.Mark()))
    && FramesInv(s)
  }

  lemma NotPastCompact(cfg: Config, s: System, q: CompactionRequest)
    requires Inv(cfg, s) && NotPast(s) && q.watermark == s.src.log.Last()
    ensures NotPast(DoCompact(cfg, s, q))
  {
    hide CompactTo, Storable, Matches, DurableInv, BookFault, Fold, Increasing;
    if q.base == s.src.checkpoint && CompactTo(cfg.src, s.src.log, q).Ok? {
      CompactFloor(cfg.src, s.src, q);
      TracksLast(s.src.history, s.src.log);
      var t := DoCompact(cfg, s, q);
      forall b | BatchFrame(b) in t.net ensures OneSide(t.src.log.floor, b) {
        assert GoodFrame(s.src.history, s.rcv.Mark(), BatchFrame(b));
      }
      forall c | SnapshotFrame(c) in t.net ensures c.watermark.Le(t.src.log.floor) {
        assert GoodFrame(s.src.history, s.rcv.Mark(), SnapshotFrame(c));
      }
    }
  }

  lemma NotPastSend(cfg: Config, s: System)
    requires Inv(cfg, s) && NotPast(s)
    ensures NotPast(DoSend(cfg, s))
  {
    hide SourceInv, ReceiverInv, BooksInv, GoodFrame, PlanBytes, SelectBatch;
    var plan := PlanRepair(cfg.srcRepair, s.src.log, s.src.Mark(), s.src.session);
    if plan.Ok? {
      if plan.value.SnapshotPlan? {
        PlannedSnapshot(cfg, s, plan.value.snapshot);
      } else {
        PlannedFrom(cfg.srcRepair, s.src.log, s.src.Mark(), s.src.session);
      }
    }
  }

  lemma PlannedFrom(re: RepairEnv, log: Log, from: Version, snapshot: Option<Checkpoint>)
    requires PlanRepair(re, log, from, snapshot).Ok? && PlanRepair(re, log, from, snapshot).value.JournalPlan?
    ensures log.floor.Le(from) && PlanRepair(re, log, from, snapshot).value.batch.from == from
  {
    hide EncodeSnapshot, Greedy, Remaining;
  }

  /** A record applied moves the tail to its version or not at all. */
  lemma AdvancedTail(env: Env, rcv: Receiver)
    ensures var next := Advanced(env, rcv);
            && next.book == rcv.book && next.peer == rcv.peer
            && (next.log.Last() == rcv.log.Last() ||
                (rcv.work.Taking? && rcv.work.done < |rcv.work.batch.records|
                 && next.log.Last() == rcv.work.batch.records[rcv.work.done].version))
            && (next.work.Taking? ==> rcv.work.Taking? && next.work.batch == rcv.work.batch)
  {
    hide ApplyRecord;
    if rcv.work.Taking? && rcv.work.done < |rcv.work.batch.records| {
      var r := rcv.work.batch.records[rcv.work.done];
      if ApplyRecord(env, rcv.blobs, Replica(rcv.log, rcv.view), r).Ok? {
        ApplyRecordShape(env, rcv.blobs, Replica(rcv.log, rcv.view), r);
      }
    }
  }

  lemma BatchBelow(h: seq<Record>, b: Batch, i: nat)
    requires Increasing(Zero, h) && GoodBatch(h, b) && b.to == LastOf(b.from, b.records) && i < |b.records|
    ensures b.records[i].version.Le(b.to)
  {
    BatchAt(h, b, i);
    BatchAt(h, b, |b.records| - 1);
  }

  lemma NotPastApply(cfg: Config, s: System)
    requires Inv(cfg, s) && NotPast(s)
    ensures NotPast(s.(rcv := Advanced(cfg.rcv, s.rcv)))
  {
    hide Advanced, Storable, Matches, DurableInv, BookFault, Fold, Increasing, GoodSnapshot, GoodBatch;
    AdvancedTail(cfg.rcv, s.rcv);
    if s.rcv.work.Taking? && s.rcv.work.done < |s.rcv.work.batch.records| {
      BatchBelow(s.src.history, s.rcv.work.batch, s.rcv.work.done);
    }
  }

  lemma NotPastSnapshot(cfg: Config, s: System, c: Checkpoint, interrupted: bool)
    requires Inv(cfg, s) && NotPast(s)
    ensures NotPast(DoSnapshot(cfg, s, c, interrupted))
  {
    hide SourceInv, ReceiverInv, BooksInv, GoodFrame, DecodeSnapshot, ApplySnapshotTo, Normalize, BoundSnapshot;
    if SnapshotFrame(c) in s.net && DecodeSnapshot(cfg.rcvRepair, cfg.srcRepair.snapshotBytes(c), c).Ok? {
      SnapshotDecoded(cfg.rcvRepair, cfg.srcRepair.snapshotBytes(c), c);
      var n := DecodeSnapshot(cfg.rcvRepair, cfg.srcRepair.snapshotBytes(c), c).value;
      if ApplySnapshotTo(cfg.rcv, s.rcv.blobs, s.rcv.log, n).Ok? {
        ApplySnapshotInstalls(cfg.rcv, s.rcv.blobs, s.rcv.log, n);
      }
    }
  }

  lemma NotPastBegin(cfg: Config, s: System, b: Batch)
    requires NotPast(s)
    ensures NotPast(DoBegin(cfg, s, b))
  {
    hide BatchFault;
  }

  lemma NotPastFinish(cfg: Config, s: System, reply: bool, fails: bool)
    requires Inv(cfg, s) && NotPast(s)
    ensures NotPast(DoFinish(cfg, s, reply, fails))
  {
    hide Inv, CoordinatedAck;
    FinishMonotone(cfg, s, reply, fails);
  }

  lemma NotPastOther(cfg: Config, s: System, step: Step)
    requires Inv(cfg, s) && NotPast(s)
    requires || step.Mutate? || step.Attach? || step.TakeAck? || step.ForgetReceiver? || step.Greet? || step.Restart?
             || step.ChangeBlobs? || step.OtherPeers?
    ensures NotPast(After(cfg, s, step))
  {
    hide ReceiverInv, BookFault, GoodFrame, Storable, GoodSnapshot, AckedBook, ForgetTo, Meaning, Tracks;
    if step.Mutate? && AppendTo(cfg.src, s.src.log, step.r).Ok? {
      AppendFloor(cfg.src, s.src.log, step.r);
    }
  }

  lemma NotPastStep(cfg: Config, s: System, step: Step)
    requires Inv(cfg, s) && NotPast(s) && (step.CompactSource? ==> step.q.watermark == s.src.log.Last())
    ensures NotPast(After(cfg, s, step))
  {
    hide Inv, NotPast, DoCompact, DoSend, DoBegin, DoSnapshot, DoFinish, Advanced;
    match step
    case CompactSource(q) => NotPastCompact(cfg, s, q);
    case SendRepair => NotPastSend(cfg, s);
    case BeginBatch(b) => NotPastBegin(cfg, s, b);
    case ApplyNext => NotPastApply(cfg, s);
    case TakeSnapshot(c, interrupted) => NotPastSnapshot(cfg, s, c, interrupted);
    case Finish(reply, fails) => NotPastFinish(cfg, s, reply, fails);
    case _ => NotPastOther(cfg, s, step);
  }

  /** When every compaction is at the tail, no run reaches a receiver that is past the floor with its watermark below it. */
  lemma {:induction false} TailCompactionsNeverStall(cfg: Config, s: System, steps: seq<Step>)
    requires Init(cfg, s) && AtTail(cfg, s, steps)
    ensures NotPast(Run(cfg, s, steps)) && Inv(cfg, Run(cfg, s, steps))
    ensures forall c :: !Stalled(cfg, Run(cfg, s, steps), c)
  {
    hide Inv, After, NotPast, Init;
    RepairSafety(cfg, s, steps);
    if steps == [] {
      StartsNotPast(cfg, s);
    } else {
      var before := Run(cfg, s, steps[..|steps| - 1]);
      TailCompactionsNeverStall(cfg, s, steps[..|steps| - 1]);
      NotPastStep(cfg, before, steps[|steps| - 1]);
    }
    var t := Run(cfg, s, steps);
    forall c ensures !Stalled(cfg, t, c) {
      NotStalled(cfg, t, c);
    }
  }

  lemma StartsNotPast(cfg: Config, s: System)
    requires Init(cfg, s)
    ensures NotPast(s)
  {
  }

  lemma NotStalled(cfg: Config, s: System, c: Checkpoint)
    requires NotPast(s)
    ensures !Stalled(cfg, s, c)
  {
    hide ReceiverInv, BooksInv, GoodFrame, PlanRepair, Passes;
    if Inv(cfg, s) && PlanRepair(cfg.srcRepair, s.src.log, s.src.Mark(), s.src.session) == Ok(SnapshotPlan(s.src.Mark(), c)) {
      PlannedSnapshot(cfg, s, c);
    }
  }
}
