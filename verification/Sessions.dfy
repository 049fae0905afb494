/** One repair session: startup reconciliation, sending, and handling of frames (session.go). */
module Sessions {
  import opened Bytes
  import opened Versions
  import opened Outcomes
  import opened Records
  import opened Checkpoints
  import opened Merging
  import opened Codec
  import opened Logs
  import opened Journals
  import opened Repair
  import opened Watermarks
  import opened Applying
  import opened Protocol
  import opened Convergence

  // ---- what one call does to a receiver ----

  /** handleBatch's loop: records are applied in order until one is refused. */
  function ApplyList(env: Env, blobs: set<seq<byte>>, p: Replica, rs: seq<Record>): (Replica, Option<Error>) {
    if rs == [] then (p, None)
    else
      var (q, refused) := ApplyList(env, blobs, p, rs[..|rs| - 1]);
      if refused.Some? then (q, refused)
      else match ApplyRecord(env, blobs, q, rs[|rs| - 1])
        case Err(e) => (q, Some(e))
        case Ok((q', _)) => (q', None)
  }

  lemma {:induction false} ApplyListPrefix(env: Env, blobs: set<seq<byte>>, p: Replica, rs: seq<Record>, n: nat)
    requires n <= |rs| && ApplyList(env, blobs, p, rs[..n]).1.Some?
    ensures ApplyList(env, blobs, p, rs) == ApplyList(env, blobs, p, rs[..n])
  {
    hide ApplyRecord;
    if n < |rs| {
      assert rs[..|rs| - 1][..n] == rs[..n];
      ApplyListPrefix(env, blobs, p, rs[..|rs| - 1], n);
    } else {
      assert rs[..n] == rs;
    }
  }

  /** writeAck */
  function Replied(re: RepairEnv, v: Version): Result<Version> {
    if re.ackBytes(v) > re.maxFrameBytes then Err(RepairFrameTooLarge)
    else if re.ackBytes(v) > re.sessionBytes then Err(FrameTooLarge)
    else Ok(v)
  }

  /** The durable acknowledgement that ends a handler, and the reply to the peer; fails: the book cannot be written. */
  function Acknowledging(be: BookEnv, re: RepairEnv, rcv: Receiver, to: Version, fails: bool): (Receiver, Result<Version>) {
    match CoordinatedAck(be, rcv.log.Last(), rcv.book, rcv.peer, to)
    case Err(e) => (rcv, Err(e))
    case Ok(m) => if fails then (rcv, Err(IOFailure)) else (rcv.(book := m), Replied(re, to))
  }

  /** Handle of a batch whose payload has this length. */
  function HandledBatch(
    env: Env, be: BookEnv, re: RepairEnv, rcv: Receiver, bytes: nat, b: Batch, fails: bool): (Receiver, Result<Version>)
  {
    if DecodeFault(re, bytes, b).Some? then (rcv, Err(DecodeFault(re, bytes, b).value))
    else match Delivery(re, b, rcv.Mark())
      case Err(e) => (rcv, Err(e))
      case Ok(Repeated) => (rcv, Replied(re, rcv.Mark()))
      case Ok(Ready) =>
        var (p, refused) := ApplyList(env, rcv.blobs, Replica(rcv.log, rcv.view), b.records);
        var applied := rcv.(log := p.log, view := p.view);
        if refused.Some? then (applied, Err(refused.value)) else Acknowledging(be, re, applied, b.to, fails)
  }

  /** Handle of a snapshot; interrupted: the journal stops between its two renames. */
  ghost function HandledSnapshot(
    env: Env, be: BookEnv, re: RepairEnv, rcv: Receiver, bytes: nat, c: Checkpoint, interrupted: bool, fails: bool):
    (Receiver, Result<Version>)
  {
    match DecodeSnapshot(re, bytes, c)
    case Err(e) => (rcv, Err(e))
    case Ok(n) =>
      if n.watermark.Le(rcv.Mark()) then (rcv, Replied(re, rcv.Mark()))
      else match ApplySnapshotTo(env, rcv.blobs, rcv.log, n)
        case Err(e) => (rcv, Err(e))
        case Ok(_) =>
          var installed := WithSnapshot(env, rcv, n, interrupted).(work := rcv.work);
          if interrupted then (installed, Err(Canceled)) else Acknowledging(be, re, installed, n.watermark, fails)
  }

  /** The acknowledgement is replied exactly when it fits the encoder's and the session's frame limit. */
  lemma ReplyExactly(re: RepairEnv, v: Version)
    ensures Replied(re, v) == Ok(v) <==> re.ackBytes(v) <= re.maxFrameBytes && re.ackBytes(v) <= re.sessionBytes
    ensures re.ackBytes(v) > re.maxFrameBytes ==> Replied(re, v) == Err(RepairFrameTooLarge)
    ensures Replied(re, v).Ok? ==> Replied(re, v).value == v
  {
  }

  /**
   * Which batches a receiver takes. Only one that decodes, starts at its watermark and ends beyond it changes anything; one
   * that ends at or before the watermark is acknowledged again; any other is a mismatch.
   */
  lemma BatchTaken(env: Env, be: BookEnv, re: RepairEnv, rcv: Receiver, bytes: nat, b: Batch, fails: bool)
    ensures var (next, reply) := HandledBatch(env, be, re, rcv, bytes, b, fails);
            var decodes := bytes <= re.maxFrameBytes && WellMade(re, b);
            && (next != rcv ==> decodes && b.from == rcv.Mark() && rcv.Mark().Lt(b.to))
            && (decodes && b.from != rcv.Mark() && rcv.Mark().Lt(b.to) ==> next == rcv && reply == Err(RepairWatermarkMismatch))
            && (decodes && b.to.Le(rcv.Mark()) ==> next == rcv && reply == Replied(re, rcv.Mark()))
            && (bytes > re.maxFrameBytes ==> reply == Err(RepairFrameTooLarge))
            && (!decodes ==> reply.Err?)
  {
    hide DecodeFault, Delivery, WellMade, ApplyList, Acknowledging, Replied;
    DecodeExactly(re, bytes, b);
    DeliveryExactly(re, b, rcv.Mark());
  }

  /**
   * What taking one does: every record is applied before the watermark moves, the watermark moves to the end of the batch,
   * and the reply names it; a refused record stops the call with the watermark where it was.
   */
  lemma BatchEffect(env: Env, be: BookEnv, re: RepairEnv, rcv: Receiver, bytes: nat, b: Batch, fails: bool)
    requires bytes <= re.maxFrameBytes && WellMade(re, b) && b.from == rcv.Mark() && rcv.Mark().Lt(b.to)
    requires BookFault(be, rcv.book).None?
    ensures var (next, reply) := HandledBatch(env, be, re, rcv, bytes, b, fails);
            var (p, refused) := ApplyList(env, rcv.blobs, Replica(rcv.log, rcv.view), b.records);
            && next.log == p.log && next.view == p.view
            && (refused.Some? ==> reply == Err(refused.value) && next.book == rcv.book)
            && (refused.None? && ValidPeer(be, rcv.peer) && p.log.Last().Lt(b.to) ==>
                  reply == Err(RepairAcknowledgement) && next.book == rcv.book)
            && (refused.None? && ValidPeer(be, rcv.peer) && b.to.Le(p.log.Last()) && Room(be, rcv.book, rcv.peer, b.to) ==>
                  if fails then reply == Err(IOFailure) && next.book == rcv.book
                  else reply == Replied(re, b.to) && next.book == rcv.book[rcv.peer := b.to])
  {
    hide DecodeFault, Delivery, WellMade, ApplyList, Replied, AcknowledgeTo, ValidPeer, Room;
    DecodeExactly(re, bytes, b);
    DeliveryExactly(re, b, rcv.Mark());
    var (p, _) := ApplyList(env, rcv.blobs, Replica(rcv.log, rcv.view), b.records);
    CoordinatorExactly(be, p.log.Last(), rcv.book, rcv.peer, b.to);
    EntryNotZero(be, rcv.book, rcv.peer);
    AcknowledgeExactly(be, rcv.book, rcv.peer, b.to);
  }

  lemma EntryNotZero(be: BookEnv, m: Book, p: Peer)
    requires BookFault(be, m).None?
    ensures p in m ==> m[p] != Zero
  {
    BookExactly(be, m);
  }

  /** Which snapshots a receiver takes: only one that decodes and is beyond its watermark changes anything. */
  lemma SnapshotTakenExactly(
    env: Env, be: BookEnv, re: RepairEnv, rcv: Receiver, bytes: nat, c: Checkpoint, interrupted: bool, fails: bool)
    requires BookFault(be, rcv.book).None?
    ensures var (next, reply) := HandledSnapshot(env, be, re, rcv, bytes, c, interrupted, fails);
            var decodes := bytes <= re.maxFrameBytes && Travels(re, c);
            && (next != rcv ==> decodes && rcv.Mark().Lt(c.watermark) && ApplySnapshotTo(env, rcv.blobs, rcv.log, Listed(c)).Ok?)
            && (bytes > re.maxFrameBytes ==> reply == Err(RepairFrameTooLarge))
            && (decodes && c.watermark.Le(rcv.Mark()) ==> reply == Replied(re, rcv.Mark()))
            && (decodes && rcv.Mark().Lt(c.watermark) && !interrupted && ApplySnapshotTo(env, rcv.blobs, rcv.log, Listed(c)).Ok? ==>
                  && next.log == Log(c.watermark, []) && next.view == ViewOf(Listed(c).records) && next.checkpoint == Some(Listed(c))
                  && (ValidPeer(be, rcv.peer) && Room(be, rcv.book, rcv.peer, c.watermark) && !fails ==>
                        next.book == rcv.book[rcv.peer := c.watermark] && reply == Replied(re, c.watermark)))
  {
    hide DecodeSnapshot, Travels, Listable, SnapshotOf, ApplySnapshotTo, Replied, AcknowledgeTo, ValidPeer, Room, BookFault;
    SnapshotExactly(re, bytes, c);
    if Travels(re, c) {
      TravelsListed(re, c);
      InstalledSnapshot(env, rcv, Listed(c));
      CoordinatorExactly(be, c.watermark, rcv.book, rcv.peer, c.watermark);
      EntryNotZero(be, rcv.book, rcv.peer);
      AcknowledgeExactly(be, rcv.book, rcv.peer, c.watermark);
    }
  }

  lemma TravelsListed(re: RepairEnv, c: Checkpoint)
    requires Travels(re, c)
    ensures Listable(re.env, Listed(c)) && Listed(Listed(c)) == Listed(c)
  {
    ListedAgain(re.env, c);
  }

  lemma InstalledSnapshot(env: Env, rcv: Receiver, n: Checkpoint)
    requires Listed(n) == n
    ensures ApplySnapshotTo(env, rcv.blobs, rcv.log, n).Ok? ==>
              ApplySnapshotTo(env, rcv.blobs, rcv.log, n).value == (n, Log(n.watermark, []))
  {
    hide ApplySnapshotTo, Listable;
    ApplySnapshotExactly(env, rcv.blobs, rcv.log, n);
  }

  // ---- each call is a run of the protocol ----

  /** The receiver after the loop has gone through the first n records of b. */
  function Looped(env: Env, rcv: Receiver, b: Batch, n: nat): Receiver
    requires n <= |b.records|
  {
    var (p, refused) := ApplyList(env, rcv.blobs, Replica(rcv.log, rcv.view), b.records[..n]);
    rcv.(log := p.log, view := p.view, work := if refused.None? then Taking(b, n) else Idle)
  }

  lemma LoopedStep(env: Env, rcv: Receiver, b: Batch, n: nat)
    requires n < |b.records|
    ensures Advanced(env, Looped(env, rcv, b, n)) == Looped(env, rcv, b, n + 1)
  {
    hide ApplyRecord;
    var rs := b.records[..n + 1];
    assert rs[..|rs| - 1] == b.records[..n];
  }

  /** The loop over a batch is that many ApplyNext steps of the protocol. */
  lemma {:induction false} HandlerIsSteps(env: Env, rcv: Receiver, b: Batch, n: nat)
    requires n <= |b.records|
    ensures AdvancedTimes(env, rcv.(work := Taking(b, 0)), n) == Looped(env, rcv, b, n)
  {
    hide Advanced;
    if n > 0 {
      HandlerIsSteps(env, rcv, b, n - 1);
      LoopedStep(env, rcv, b, n - 1);
    }
  }

  lemma {:induction false} IdleSteps(env: Env, rcv: Receiver, n: nat)
    requires rcv.work.Idle?
    ensures AdvancedTimes(env, rcv, n) == rcv
  {
    if n > 0 {
      IdleSteps(env, rcv, n - 1);
    }
  }

  function Applies(n: nat): seq<Step> {
    seq(n, i => ApplyNext)
  }

  lemma {:induction false} AppliesRun(cfg: Config, s: System, steps: seq<Step>, n: nat)
    ensures Run(cfg, s, steps + Applies(n)) == ApplyTimes(cfg, Run(cfg, s, steps), n)
  {
    hide Run, Advanced;
    if n == 0 {
      assert steps + Applies(0) == steps;
    } else {
      AppliesRun(cfg, s, steps, n - 1);
      assert steps + Applies(n) == steps + Applies(n - 1) + [ApplyNext];
      RunStep(cfg, s, steps + Applies(n - 1), ApplyNext);
    }
  }

  /** The protocol's steps during one handleBatch call. */
  function BatchSteps(b: Batch, fails: bool): seq<Step> {
    [BeginBatch(b)] + Applies(|b.records|) + [Finish(true, fails)]
  }

  lemma BatchStepsRun(cfg: Config, s: System, b: Batch, fails: bool)
    ensures Run(cfg, s, BatchSteps(b, fails)) == DoFinish(cfg, ApplyTimes(cfg, DoBegin(cfg, s, b), |b.records|), true, fails)
  {
    hide Run, DoBegin, DoFinish, Advanced, ApplyTimes;
    RunNothing(cfg, s);
    RunStep(cfg, s, [], BeginBatch(b));
    assert [] + [BeginBatch(b)] == [BeginBatch(b)];
    AppliesRun(cfg, s, [BeginBatch(b)], |b.records|);
    RunStep(cfg, s, [BeginBatch(b)] + Applies(|b.records|), Finish(true, fails));
  }

  /** The state the call's outcome stands for: the receiver it leaves, and the acknowledgement it wrote if any. */
  function Outcome(s: System, handled: (Receiver, Result<Version>)): System {
    System(s.src, handled.0, if handled.1.Ok? then s.net + {AckFrame(handled.1.value)} else s.net)
  }

  lemma LoopFinished(cfg: Config, s: System, b: Batch, fails: bool)
    requires s.rcv.work.Idle? && Delivery(cfg.rcvRepair, b, s.rcv.Mark()) == Ok(Ready)
    requires DecodeFault(cfg.rcvRepair, cfg.srcRepair.batchBytes(b), b).None?
    ensures DoFinish(cfg, s.(rcv := Looped(cfg.rcv, s.rcv, b, |b.records|)), true, fails) ==
            Outcome(s, HandledBatch(cfg.rcv, cfg.rcvBook, cfg.rcvRepair, s.rcv, cfg.srcRepair.batchBytes(b), b, fails))
  {
    hide DecodeFault, Delivery, CoordinatedAck, ApplyList;
    assert b.records[..|b.records|] == b.records;
    var (p, refused) := ApplyList(cfg.rcv, s.rcv.blobs, Replica(s.rcv.log, s.rcv.view), b.records);
    var applied := s.rcv.(log := p.log, view := p.view);
    var looped := Looped(cfg.rcv, s.rcv, b, |b.records|);
    assert looped == if refused.Some? then applied else applied.(work := Taking(b, |b.records|));
  }

  /** A handleBatch call is a run of the protocol: begin, one step per record, finish. */
  lemma BatchCallIsRun(cfg: Config, s: System, b: Batch, fails: bool)
    requires BatchFrame(b) in s.net && s.rcv.work.Idle?
    ensures Run(cfg, s, BatchSteps(b, fails)) ==
            Outcome(s, HandledBatch(cfg.rcv, cfg.rcvBook, cfg.rcvRepair, s.rcv, cfg.srcRepair.batchBytes(b), b, fails))
  {
    hide Run, DecodeFault, Delivery, CoordinatedAck, ApplyList, Advanced, AdvancedTimes, ApplyTimes;
    BatchStepsRun(cfg, s, b, fails);
    var begun, n := DoBegin(cfg, s, b), |b.records|;
    ApplyTimesShape(cfg, begun, n);
    if begun.rcv.work.Taking? {
      HandlerIsSteps(cfg.rcv, s.rcv, b, n);
      assert b.records[..n] == b.records;
      assert Delivery(cfg.rcvRepair, b, s.rcv.Mark()) == Ok(Ready) && begun == s.(rcv := s.rcv.(work := Taking(b, 0)));
      LoopFinished(cfg, s, b, fails);
    } else {
      IdleSteps(cfg.rcv, begun.rcv, n);
    }
  }

  /** So is a handleSnapshot call: install, finish. */
  lemma SnapshotCallIsRun(cfg: Config, s: System, c: Checkpoint, interrupted: bool, fails: bool)
    requires SnapshotFrame(c) in s.net && s.rcv.work.Idle?
    ensures Run(cfg, s, [TakeSnapshot(c, interrupted), Finish(true, fails)]) ==
            Outcome(s, HandledSnapshot(
              cfg.rcv, cfg.rcvBook, cfg.rcvRepair, s.rcv, cfg.srcRepair.snapshotBytes(c), c, interrupted, fails))
  {
    hide Run, DecodeSnapshot, CoordinatedAck, ApplySnapshotTo;
    RunNothing(cfg, s);
    RunStep(cfg, s, [], TakeSnapshot(c, interrupted));
    assert [] + [TakeSnapshot(c, interrupted)] == [TakeSnapshot(c, interrupted)];
    RunStep(cfg, s, [TakeSnapshot(c, interrupted)], Finish(true, fails));
    assert [TakeSnapshot(c, interrupted)] + [Finish(true, fails)] == [TakeSnapshot(c, interrupted), Finish(true, fails)];
    SnapshotSteps(cfg, s, c, interrupted, fails);
  }

  lemma SnapshotSteps(cfg: Config, s: System, c: Checkpoint, interrupted: bool, fails: bool)
    requires SnapshotFrame(c) in s.net && s.rcv.work.Idle?
    ensures DoFinish(cfg, DoSnapshot(cfg, s, c, interrupted), true, fails) ==
            Outcome(s, HandledSnapshot(
              cfg.rcv, cfg.rcvBook, cfg.rcvRepair, s.rcv, cfg.srcRepair.snapshotBytes(c), c, interrupted, fails))
  {
    hide CoordinatedAck, ApplySnapshotTo, BoundSnapshot;
    if DecodeSnapshot(cfg.rcvRepair, cfg.srcRepair.snapshotBytes(c), c).Ok? {
      SnapshotDecoded(cfg.rcvRepair, cfg.srcRepair.snapshotBytes(c), c);
    }
  }

  /** SendNext's frame: the plan, if it passes the session's own limit. */
  ghost function Sent(re: RepairEnv, log: Log, from: Version, snapshot: Option<Checkpoint>): Result<RepairPlan> {
    match PlanRepair(re, log, from, snapshot)
    case Err(e) => Err(e)
    case Ok(plan) => if PlanBytes(re, plan) > re.sessionBytes then Err(RepairFrameTooLarge) else Ok(plan)
  }

  /** Handle of an acknowledgement: the session flag and the book it leaves; only the first one may reconcile. */
  function HandledAck(
    be: BookEnv, re: RepairEnv, reconcile: bool, hello: bool, tail: Version, m: Book, p: Peer, bytes: nat, v: Version):
    (bool, Result<Book>)
  {
    if bytes > re.maxFrameBytes then (hello, Err(RepairFrameTooLarge))
    else (hello || reconcile, AckedBook(be, reconcile && !hello, tail, m, p, v))
  }

  /** A frame is sent exactly when there is a plan and its payload fits the session. */
  lemma SentExactly(re: RepairEnv, log: Log, from: Version, snapshot: Option<Checkpoint>)
    ensures var plan, sent := PlanRepair(re, log, from, snapshot), Sent(re, log, from, snapshot);
            && (plan.Err? ==> sent == Err(plan.error))
            && (plan.Ok? ==>
                  var bytes := if plan.value.JournalPlan? then re.batchBytes(plan.value.batch) else re.snapshotBytes(plan.value.snapshot);
                  sent == if bytes <= re.sessionBytes then Ok(plan.value) else Err(RepairFrameTooLarge))
  {
    hide PlanRepair;
  }

  /**
   * What an acknowledgement does: one that does not decode does nothing; the session's first, if it reconciles, sets the
   * entry unless there is no journal yet; any other raises it.
   */
  lemma AckExactly(
    be: BookEnv, re: RepairEnv, reconcile: bool, hello: bool, tail: Version, m: Book, p: Peer, bytes: nat, v: Version)
    requires BookFault(be, m).None? && ValidPeer(be, p)
    ensures var (flag, res) := HandledAck(be, re, reconcile, hello, tail, m, p, bytes, v);
            && (bytes > re.maxFrameBytes ==> flag == hello && res == Err(RepairFrameTooLarge))
            && (bytes <= re.maxFrameBytes ==> (flag <==> hello || reconcile))
            && (bytes <= re.maxFrameBytes && reconcile && !hello && tail == Zero ==> res == Ok(m))
            && (bytes <= re.maxFrameBytes && !(reconcile && !hello && tail == Zero) && tail.Lt(v) ==> res == Err(RepairAcknowledgement))
            && (bytes <= re.maxFrameBytes && reconcile && !hello && tail != Zero && v.Le(tail) && v != Zero && Room(be, m, p, v) ==>
                  res.Ok? && Acknowledged(res.value, p) == v)
            && (bytes <= re.maxFrameBytes && (hello || !reconcile) && v.Le(tail) && Acknowledged(m, p).Lt(v) && Room(be, m, p, v) ==>
                  res.Ok? && Acknowledged(res.value, p) == v)
            && (bytes <= re.maxFrameBytes && (hello || !reconcile) && v.Le(tail) && v != Zero && v.Lt(Acknowledged(m, p)) ==>
                  res == Err(WatermarkRegression))
  {
    hide ValidPeer, FileOf, AcknowledgeTo, ReconcileTo;
    EntryNotZero(be, m, p);
    CoordinatorExactly(be, tail, m, p, v);
    AcknowledgeExactly(be, m, p, v);
    ReconcileExactly(be, m, p, v);
  }

  /** The source's two calls are steps of the protocol as well. */
  lemma SourceCallsAreSteps(cfg: Config, s: System, reconcile: bool, hello: bool, v: Version)
    requires AckFrame(v) in s.net
    ensures var sent := Sent(cfg.srcRepair, s.src.log, s.src.Mark(), s.src.session);
            DoSend(cfg, s) == if sent.Ok? then s.(net := s.net + {FrameOf(sent.value)}) else s
    ensures var book := HandledAck(cfg.srcBook, cfg.srcRepair, reconcile, hello, s.src.log.Last(), s.src.book, s.src.peer,
                                   cfg.rcvRepair.ackBytes(v), v).1;
            DoTakeAck(cfg, s, v, reconcile && !hello) == if book.Ok? then s.(src := s.src.(book := book.value)) else s
  {
    hide PlanRepair, PlanBytes, AckedBook;
  }

  // ---- the session object ----

  class RepairSession {
    const applier: Applier
    const book: WatermarkBook
    const re: RepairEnv
    const peer: Peer
    const reconcilePeer: bool
    const snapshot: Option<Checkpoint>
    var helloReceived: bool

    constructor (applier: Applier, book: WatermarkBook, re: RepairEnv, peer: Peer, reconcilePeer: bool, snapshot: Option<Checkpoint>)
      ensures this.applier == applier && this.book == book && this.re == re && this.peer == peer
      ensures this.reconcilePeer == reconcilePeer && this.snapshot == snapshot && !helloReceived
    {
      this.applier, this.book, this.re, this.peer := applier, book, re, peer;
      this.reconcilePeer, this.snapshot, helloReceived := reconcilePeer, snapshot, false;
    }

    ghost predicate Valid()
      reads this, applier, applier.store, applier.journal, applier.journal.disk, book
    {
      applier.Valid() && book.Valid()
    }

    /** The watermark the book holds for the peer. */
    function Expected(): Version
      reads this, book
    {
      Acknowledged(book.watermarks, peer)
    }

    /** rcv is this node between two calls; its files are pinned by the journal's trace. */
    ghost predicate Shows(rcv: Receiver)
      reads this, applier, applier.store, applier.journal, book
    {
      && Replica(rcv.log, rcv.view) == applier.Current() && rcv.blobs == applier.Sealed()
      && rcv.peer == peer && rcv.book == book.watermarks && rcv.work.Idle?
    }

    /** SendNext: the frame planned from the peer's durable watermark. */
    method SendNext() returns (res: Result<RepairPlan>)
      requires Valid()
      ensures res == Sent(re, applier.journal.Contents(), Expected(), snapshot)
    {
      res := Plan(re, Log(applier.journal.floor, applier.journal.records), Expected(), snapshot);
      if res.Ok? && PlanBytes(re, res.value) > re.sessionBytes {
        return Err(RepairFrameTooLarge);
      }
    }

    /** The acknowledgement case of Handle. */
    method HandleAck(v: Version, bytes: nat, w: Write) returns (err: Option<Error>)
      requires Valid()
      modifies this, book
      ensures Valid()
      ensures var (hello, outcome) := HandledAck(
                book.be, re, reconcilePeer, old(helloReceived), applier.journal.last, old(book.watermarks), peer, bytes, v);
              && helloReceived == hello
              && (outcome.Err? ==> err == Some(outcome.error))
              && (err.None? ==> outcome == Ok(book.watermarks))
              && (err.Some? && outcome.Ok? ==> !w.Landed? && err == Some(IOFailure))
      ensures err.Some? ==> book.watermarks == old(book.watermarks)
    {
      if bytes > re.maxFrameBytes {
        return Some(RepairFrameTooLarge);
      }
      var tail := applier.journal.last;
      if reconcilePeer && !helloReceived {
        helloReceived := true;
        if tail.IsZero() {
          return None;
        }
        if !ValidPeer(book.be, peer) {
          return Some(WatermarkPeerInvalid);
        }
        if tail.Lt(v) {
          return Some(RepairAcknowledgement);
        }
        err := book.Reconcile(peer, v, w);
        return;
      }
      err := CoordinatorAcknowledge(v, w);
    }

    /** RepairCoordinator.Acknowledge */
    method CoordinatorAcknowledge(v: Version, w: Write) returns (err: Option<Error>)
      requires Valid()
      modifies book
      ensures Valid()
      ensures var outcome := CoordinatedAck(book.be, applier.journal.last, old(book.watermarks), peer, v);
              && err == Saved(outcome, !v.IsZero() && old(Expected()) != v, w)
              && (err.None? ==> outcome == Ok(book.watermarks))
      ensures err.Some? ==> book.watermarks == old(book.watermarks)
    {
      if !ValidPeer(book.be, peer) {
        return Some(WatermarkPeerInvalid);
      }
      if applier.journal.last.Lt(v) {
        return Some(RepairAcknowledgement);
      }
      err := book.Acknowledge(peer, v, w);
    }

    /** writeAck up to the connection. */
    method WriteAck(v: Version) returns (reply: Result<Version>)
      ensures reply == Replied(re, v)
    {
      if re.ackBytes(v) > re.maxFrameBytes {
        return Err(RepairFrameTooLarge);
      }
      reply := if re.ackBytes(v) > re.sessionBytes then Err(FrameTooLarge) else Ok(v);
    }

    /** The acknowledgement of a finished handler: persisted, then written to the peer. */
    method Conclude(to: Version, w: Write, ghost rcv: Receiver) returns (reply: Result<Version>)
      requires Valid() && Shows(rcv) && Expected().Lt(to)
      modifies book
      ensures Valid()
      ensures var (next, replied) := Acknowledging(book.be, re, rcv, to, !w.Landed?);
              Shows(next) && reply == replied
    {
      hide CoordinatedAck, BookFault, Sound, Storable, OpenBook, SoundBook;
      var err := CoordinatorAcknowledge(to, w);
      if err.Some? {
        return Err(err.value);
      }
      reply := WriteAck(to);
    }

    /** handleBatch: reply is the watermark acknowledged to the peer. */
    method HandleBatch(b: Batch, bytes: nat, w: Write, ghost rcv: Receiver) returns (reply: Result<Version>)
      requires Valid() && Shows(rcv)
      modifies applier`blobs, applier.store`records, applier.journal, applier.journal.disk, book
      ensures Valid() && applier.blobs == old(applier.blobs)
      ensures var (next, replied) := HandledBatch(applier.env, book.be, re, rcv, bytes, b, !w.Landed?);
              Shows(next) && Reports(replied, reply)
    {
      hide Acknowledging, BookFault, Sound, Storable, OpenBook, SoundBook, ApplyList, BatchFault, Replied;
      if bytes > re.maxFrameBytes {
        return Err(RepairFrameTooLarge);
      }
      var expected := Expected();
      var fault := ValidateBatch(re, b);
      if fault.Some? {
        return Err(fault.value);
      }
      if b.to.Le(expected) {
        reply := WriteAck(expected);
        return;
      }
      if b.from != expected {
        return Err(RepairWatermarkMismatch);
      }
      ghost var (p, _) := ApplyList(applier.env, rcv.blobs, Replica(rcv.log, rcv.view), b.records);
      var refused := ApplyRecords(b.records);
      if refused.Some? {
        return Err(refused.value);
      }
      reply := Conclude(b.to, w, rcv.(log := p.log, view := p.view));
    }

    /** The record loop of handleBatch. */
    method ApplyRecords(rs: seq<Record>) returns (refused: Option<Error>)
      requires Valid()
      modifies applier`blobs, applier.store`records, applier.journal, applier.journal.disk
      ensures Valid() && applier.blobs == old(applier.blobs)
      ensures var (p, e) := ApplyList(applier.env, old(applier.Sealed()), old(applier.Current()), rs);
              && applier.Current() == p && (refused.Some? <==> e.Some?)
              && (refused.Some? ==> Reported(e.value, refused.value))
    {
      hide ApplyRecord, Storable, Sound, OpenBook, SoundBook, BookFault;
      ghost var blobs, start := applier.Sealed(), applier.Current();
      for i := 0 to |rs|
        invariant Valid() && applier.blobs == old(applier.blobs)
        invariant ApplyList(applier.env, blobs, start, rs[..i]) == (applier.Current(), None)
      {
        assert rs[..i + 1][..i] == rs[..i];
        var res := applier.Apply(rs[i], None, false);
        if res.Err? {
          ApplyListPrefix(applier.env, blobs, start, rs, i + 1);
          return Some(res.error);
        }
      }
      assert rs[..|rs|] == rs;
      refused := None;
    }

    /** handleSnapshot */
    method HandleSnapshot(c: Checkpoint, bytes: nat, interrupted: bool, w: Write, ghost rcv: Receiver)
      returns (reply: Result<Version>)
      requires Valid() && Shows(rcv)
      modifies applier`blobs, applier.store`records, applier.journal, applier.journal.disk, book
      ensures Valid() && applier.blobs == old(applier.blobs)
      ensures var (next, replied) := HandledSnapshot(applier.env, book.be, re, rcv, bytes, c, interrupted, !w.Landed?);
              Shows(next) && Reports(replied, reply)
    {
      hide ApplySnapshotTo, Acknowledging, BookFault, Sound, Storable, OpenBook, SoundBook, BoundSnapshot, Replied, CheckpointBytes;
      if bytes > re.maxFrameBytes {
        return Err(RepairFrameTooLarge);
      }
      var decoded := NormalizeSnapshot(re, c);
      if decoded.Err? {
        return Err(decoded.error);
      }
      var n := decoded.value;
      var expected := Expected();
      if n.watermark.Le(expected) {
        reply := WriteAck(expected);
        return;
      }
      var err := applier.ApplySnapshot(n, false, interrupted);
      if err.Some? {
        return Err(err.value);
      }
      reply := Conclude(n.watermark, w, WithSnapshot(applier.env, rcv, n, false).(work := Idle));
    }
  }

  /** The reply of a call, up to how a blob that is there but damaged is reported. */
  predicate Reports(modelled: Result<Version>, reply: Result<Version>) {
    reply == modelled || (modelled.Err? && reply.Err? && Reported(modelled.error, reply.error))
  }

  // ---- startup reconciliation over a whole session ----

  /** A decoded acknowledgement, and the source's journal tail when it is handled. */
  datatype Ack = Ack(tail: Version, v: Version)

  /** The session flag and the book after a sequence of acknowledgements. */
  function AckRun(be: BookEnv, m: Book, p: Peer, acks: seq<Ack>): (bool, Book) {
    if acks == [] then (false, m)
    else
      var (hello, before) := AckRun(be, m, p, acks[..|acks| - 1]);
      var ack := acks[|acks| - 1];
      var outcome := AckedBook(be, !hello, ack.tail, before, p, ack.v);
      (true, if outcome.Ok? then outcome.value else before)
  }

  /** The journal only grows while the session runs. */
  predicate TailsGrow(acks: seq<Ack>) {
    forall i :: 0 < i < |acks| ==> acks[i - 1].tail.Le(acks[i].tail)
  }

  /** The source takes the greeting: it has a journal that reaches the reported version, and the book can be written. */
  predicate Greeted(be: BookEnv, m: Book, p: Peer, ack: Ack) {
    !ack.tail.IsZero() && CoordinatedReconcile(be, ack.tail, m, p, ack.v).Ok?
  }

  /**
   * Whatever stale watermark the source holds, the first acknowledgement of a session sets it to exactly the
   * reported version when the source takes it, and leaves the book alone otherwise. No later one is taken for a
   * greeting, so from then on the watermark never moves back, is always one that was acknowledged, and does not
   * pass the tail.
   */
  lemma {:induction false} Reconciliation(be: BookEnv, m: Book, p: Peer, acks: seq<Ack>)
    requires BookFault(be, m).None? && acks != [] && TailsGrow(acks) && Acknowledged(m, p).Le(acks[0].tail)
    ensures var (hello, m') := AckRun(be, m, p, acks);
            var base := if Greeted(be, m, p, acks[0]) then acks[0].v else Acknowledged(m, p);
            var mark := Acknowledged(m', p);
            && hello && BookFault(be, m').None? && base.Le(mark) && mark.Le(acks[|acks| - 1].tail)
            && (mark == base || exists i :: 0 < i < |acks| && mark == acks[i].v)
            && (|acks| == 1 ==> mark == base && (!Greeted(be, m, p, acks[0]) ==> m' == m))
  {
    hide BookFault, AcknowledgeTo, ReconcileTo, ValidPeer;
    var init, ack := acks[..|acks| - 1], acks[|acks| - 1];
    if |acks| == 1 {
      assert init == [];
      if Greeted(be, m, p, ack) {
        ReconcileMeaning(be, m, p, ack.v);
      }
    } else {
      Reconciliation(be, m, p, init);
      assert init[0] == acks[0] && init[|init| - 1].tail.Le(ack.tail);
      var before := AckRun(be, m, p, init).1;
      assert forall i :: 0 < i < |init| ==> init[i] == acks[i];
      if CoordinatedAck(be, ack.tail, before, p, ack.v).Ok? {
        AcknowledgeMeaning(be, before, p, ack.v);
      }
    }
  }

  /** After the greeting the next plan is a snapshot exactly when the peer is below the floor, else a batch from there. */
  lemma PlanAfterGreeting(be: BookEnv, re: RepairEnv, log: Log, m: Book, p: Peer, v: Version, snapshot: Option<Checkpoint>)
    requires BookFault(be, m).None? && Increasing(log.floor, log.records) && Acknowledged(m, p).Le(log.Last())
    requires Greeted(be, m, p, Ack(log.Last(), v))
    ensures var m' := AckRun(be, m, p, [Ack(log.Last(), v)]).1;
            var plan := PlanRepair(re, log, Acknowledged(m', p), snapshot);
            plan.Ok? ==>
              && (plan.value.SnapshotPlan? <==> v.Lt(log.floor))
              && (match plan.value
                  case SnapshotPlan(from, c) => from == v && c.watermark == log.floor
                  case JournalPlan(b) => b.from == v && b.records == log.records[Cut(log.records, v)..][..|b.records|])
  {
    hide AckRun, Greeted, BookFault;
    Reconciliation(be, m, p, [Ack(log.Last(), v)]);
    if v.Lt(log.floor) {
      if snapshot.Some? && Normalize(re.env, snapshot.value).Ok? {
        NormalizeOk(re.env, snapshot.value);
      }
    }
  }

  /** A greeting past the source's tail is refused, yet uses up the session's one chance to reconcile. */
  lemma GreetingPastTail(be: BookEnv, tail: Version, m: Book, p: Peer, v: Version)
    requires tail.Lt(v) && ValidPeer(be, p)
    ensures AckRun(be, m, p, [Ack(tail, v)]) == (true, m)
  {
    assert [Ack(tail, v)][..0] == [];
  }
}
