/**
 * The repair protocol as a state machine: one source, one receiver, and a network that may deliver any
 * frame ever sent, any number of times and in any order, while the receiver may crash between any two
 * record applies (session.go, repair.go, apply.go).
 */
module Protocol {
  import opened Orders
  import opened Bytes
  import opened Versions
  import opened Outcomes
  import opened Records
  import opened Checkpoints
  import opened Merging
  import opened Codec
  import opened Logs
  import opened Repair
  import opened Watermarks
  import opened History
  import opened Applying

  datatype Frame = BatchFrame(batch: Batch) | SnapshotFrame(snapshot: Checkpoint) | AckFrame(watermark: Version)

  /**
   * history is the source's whole past; peer is the receiver's identity and book what the source has recorded of
   * its peers; session is the checkpoint its running session was attached with.
   */
  datatype Source = Source(
    history: seq<Record>, log: Log, checkpoint: Option<Checkpoint>, peer: Peer, book: Book, session: Option<Checkpoint>) {
    function Mark(): Version {
      Acknowledged(book, peer)
    }
  }

  /** What the receiver's handler is in the middle of; Down is a node whose directory no longer opens. */
  datatype Work = Idle | Taking(batch: Batch, done: nat) | Installed(watermark: Version) | Down

  /**
   * checkpoint is the one at the journal's floor. While stranded is set, an interrupted install has left a newer
   * checkpoint file beside the journal, and the directory does not open.
   */
  datatype Receiver = Receiver(
    log: Log, checkpoint: Option<Checkpoint>, stranded: bool, view: View, peer: Peer, book: Book, blobs: set<seq<byte>>, work: Work) {
    function Mark(): Version {
      Acknowledged(book, peer)
    }
  }

  datatype System = System(src: Source, rcv: Receiver, net: set<Frame>)

  /** Each node's library environment, repair and session limits, and watermark book. */
  datatype Config = Config(
    src: Env, rcv: Env, srcRepair: RepairEnv, rcvRepair: RepairEnv, srcBook: BookEnv, rcvBook: BookEnv)

  datatype Step =
    | Mutate(r: Record)
    | CompactSource(q: CompactionRequest)
    | Attach
    | SendRepair
    | TakeAck(ack: Version, hello: bool)
    | ForgetReceiver
    | BeginBatch(b: Batch)
    | ApplyNext
    | TakeSnapshot(c: Checkpoint, interrupted: bool)
    | Finish(reply: bool, fails: bool)
    | Greet
    | Restart
    | ChangeBlobs(now: set<seq<byte>>)
    | OtherPeers(srcBook: Book, rcvBook: Book)

  /** The frame SendNext writes for a plan. */
  function FrameOf(p: RepairPlan): Frame {
    match p
    case JournalPlan(b) => BatchFrame(b)
    case SnapshotPlan(_, c) => SnapshotFrame(c)
  }

  /** One record of handleBatch's loop; an error ends the handler. */
  function Advanced(env: Env, rcv: Receiver): Receiver {
    if !rcv.work.Taking? || rcv.work.done >= |rcv.work.batch.records| then rcv
    else match ApplyRecord(env, rcv.blobs, Replica(rcv.log, rcv.view), rcv.work.batch.records[rcv.work.done])
      case Err(_) => rcv.(work := Idle)
      case Ok((p, _)) => rcv.(log := p.log, view := p.view, work := Taking(rcv.work.batch, rcv.work.done + 1))
  }

  /** handleSnapshot up to the installed checkpoint, or up to the first of its two renames. */
  ghost function WithSnapshot(env: Env, rcv: Receiver, c: Checkpoint, interrupted: bool): Receiver {
    match ApplySnapshotTo(env, rcv.blobs, rcv.log, c)
    case Err(_) => rcv
    case Ok((n, log')) =>
      if !interrupted then
        rcv.(log := log', checkpoint := Some(n), stranded := false, view := ViewOf(n.records), work := Installed(c.watermark))
      else if c.watermark == rcv.log.floor then rcv.(checkpoint := Some(n), stranded := false)
      else rcv.(stranded := true)
  }

  /** What a handler that has done its work is about to acknowledge. */
  function Target(rcv: Receiver): Option<Version> {
    match rcv.work
    case Idle => None
    case Taking(b, done) => if done == |b.records| then Some(b.to) else None
    case Installed(w) => Some(w)
    case Down => None
  }

  /** The receiver's own coordinator.Acknowledge: within the journal tail, and if the book takes it. */
  function Finished(be: BookEnv, rcv: Receiver, to: Version): Receiver {
    match CoordinatedAck(be, rcv.log.Last(), rcv.book, rcv.peer, to)
    case Err(_) => rcv.(work := Idle)
    case Ok(m) => rcv.(book := m, work := Idle)
  }

  /** The acknowledgement the receiver writes, when it fits its limits. */
  function WithAck(cfg: Config, net: set<Frame>, v: Version): set<Frame> {
    if AckFits(cfg.rcvRepair, v) then net + {AckFrame(v)} else net
  }

  // Each step is atomic; a step whose guard fails leaves everything as it was.

  function DoMutate(cfg: Config, s: System, r: Record): System {
    match AppendTo(cfg.src, s.src.log, r)
    case Err(_) => s
    case Ok(log') => s.(src := s.src.(history := s.src.history + [r], log := log'))
  }

  ghost function DoCompact(cfg: Config, s: System, q: CompactionRequest): System {
    if q.base != s.src.checkpoint then s
    else match CompactTo(cfg.src, s.src.log, q)
      case Err(_) => s
      case Ok((c, log')) => s.(src := s.src.(log := log', checkpoint := Some(c)))
  }

  ghost function DoSend(cfg: Config, s: System): System {
    match PlanRepair(cfg.srcRepair, s.src.log, s.src.Mark(), s.src.session)
    case Err(_) => s
    case Ok(plan) =>
      if PlanBytes(cfg.srcRepair, plan) > cfg.srcRepair.sessionBytes then s else s.(net := s.net + {FrameOf(plan)})
  }

  /** What an acknowledgement does to the source's book; a greeting reconciles, unless there is no journal yet. */
  function AckedBook(be: BookEnv, hello: bool, tail: Version, m: Book, p: Peer, v: Version): Result<Book> {
    if !hello then CoordinatedAck(be, tail, m, p, v)
    else if tail.IsZero() then Ok(m)
    else CoordinatedReconcile(be, tail, m, p, v)
  }

  function DoTakeAck(cfg: Config, s: System, v: Version, hello: bool): System {
    if AckFrame(v) !in s.net || cfg.rcvRepair.ackBytes(v) > cfg.srcRepair.maxFrameBytes then s
    else match AckedBook(cfg.srcBook, hello, s.src.log.Last(), s.src.book, s.src.peer, v)
      case Err(_) => s
      case Ok(m) => s.(src := s.src.(book := m))
  }

  function DoForget(cfg: Config, s: System): System {
    match ForgetTo(cfg.srcBook, s.src.book, s.src.peer)
    case Err(_) => s
    case Ok(m) => s.(src := s.src.(book := m))
  }

  function DoBegin(cfg: Config, s: System, b: Batch): System {
    if BatchFrame(b) !in s.net || !s.rcv.work.Idle? then s
    else if DecodeFault(cfg.rcvRepair, cfg.srcRepair.batchBytes(b), b).Some? then s
    else match Delivery(cfg.rcvRepair, b, s.rcv.Mark())
      case Err(_) => s
      case Ok(Repeated) => s.(net := WithAck(cfg, s.net, s.rcv.Mark()))
      case Ok(Ready) => s.(rcv := s.rcv.(work := Taking(b, 0)))
  }

  ghost function DoSnapshot(cfg: Config, s: System, c: Checkpoint, interrupted: bool): System {
    if SnapshotFrame(c) !in s.net || !s.rcv.work.Idle? then s
    else match DecodeSnapshot(cfg.rcvRepair, cfg.srcRepair.snapshotBytes(c), c)
      case Err(_) => s
      case Ok(n) =>
        if n.watermark.Le(s.rcv.Mark()) then s.(net := WithAck(cfg, s.net, s.rcv.Mark()))
        else s.(rcv := WithSnapshot(cfg.rcv, s.rcv, n, interrupted))
  }

  /** fails: the book could not be written. */
  function DoFinish(cfg: Config, s: System, reply: bool, fails: bool): System {
    if Target(s.rcv).None? then s
    else
      var to := Target(s.rcv).value;
      if fails || CoordinatedAck(cfg.rcvBook, s.rcv.log.Last(), s.rcv.book, s.rcv.peer, to).Err? then
        s.(rcv := s.rcv.(work := Idle))
      else System(s.src, Finished(cfg.rcvBook, s.rcv, to), if reply then WithAck(cfg, s.net, to) else s.net)
  }

  /** A restart rebuilds the store from the files, or finds that they do not open. */
  function DoRestart(s: System): System {
    if s.rcv.work.Down? then s
    else if s.rcv.stranded then s.(rcv := s.rcv.(work := Down))
    else s.(rcv := s.rcv.(view := Meaning(s.rcv.checkpoint, s.rcv.log), work := Idle))
  }

  /** Sessions with other peers change other entries of the two books. */
  function DoOthers(cfg: Config, s: System, srcBook: Book, rcvBook: Book): System {
    if || BookFault(cfg.srcBook, srcBook).Some? || BookFault(cfg.rcvBook, rcvBook).Some?
       || Acknowledged(srcBook, s.src.peer) != s.src.Mark() || Acknowledged(rcvBook, s.rcv.peer) != s.rcv.Mark()
    then s
    else s.(src := s.src.(book := srcBook), rcv := s.rcv.(book := rcvBook))
  }

  ghost function After(cfg: Config, s: System, step: Step): System {
    match step
    case Mutate(r) => DoMutate(cfg, s, r)
    case CompactSource(q) => DoCompact(cfg, s, q)
    case Attach => s.(src := s.src.(session := s.src.checkpoint))
    case SendRepair => DoSend(cfg, s)
    case TakeAck(v, hello) => DoTakeAck(cfg, s, v, hello)
    case ForgetReceiver => DoForget(cfg, s)
    case BeginBatch(b) => DoBegin(cfg, s, b)
    case ApplyNext => s.(rcv := Advanced(cfg.rcv, s.rcv))
    case TakeSnapshot(c, interrupted) => DoSnapshot(cfg, s, c, interrupted)
    case Finish(reply, fails) => DoFinish(cfg, s, reply, fails)
    case Greet => if s.rcv.work.Down? then s else s.(net := WithAck(cfg, s.net, s.rcv.Mark()))
    case Restart => DoRestart(s)
    case ChangeBlobs(now) => s.(rcv := s.rcv.(blobs := now))
    case OtherPeers(srcBook, rcvBook) => DoOthers(cfg, s, srcBook, rcvBook)
  }

  /** The source's own steps do what they are named for, when nothing refuses them. */
  lemma SourceEffects(cfg: Config, s: System, r: Record)
    ensures AppendTo(cfg.src, s.src.log, r).Ok? ==>
              var t := DoMutate(cfg, s, r);
              t.src.history == s.src.history + [r] && t.src.log.records == s.src.log.records + [r]
    ensures After(cfg, s, Attach) == s.(src := s.src.(session := s.src.checkpoint))
    ensures ValidPeer(cfg.srcBook, s.src.peer) && |FileOf(cfg.srcBook, s.src.book - {s.src.peer})| <= cfg.srcBook.maxBytes ==>
              DoForget(cfg, s).src.Mark() == Zero
  {
    hide FileOf, ValidPeer, JournalBytes;
    assert s.src.peer !in s.src.book ==> s.src.book - {s.src.peer} == s.src.book;
  }

  /** So do the receiver's, and the sessions with other peers may change both books as long as they leave this pair alone. */
  lemma ReceiverEffects(cfg: Config, s: System, now: set<seq<byte>>, srcBook: Book, rcvBook: Book)
    ensures !s.rcv.work.Down? && AckFits(cfg.rcvRepair, s.rcv.Mark()) ==>
              After(cfg, s, Greet) == s.(net := s.net + {AckFrame(s.rcv.Mark())})
    ensures !s.rcv.work.Down? ==>
              DoRestart(s).rcv == if s.rcv.stranded then s.rcv.(work := Down)
                                  else s.rcv.(view := Meaning(s.rcv.checkpoint, s.rcv.log), work := Idle)
    ensures After(cfg, s, ChangeBlobs(now)) == s.(rcv := s.rcv.(blobs := now))
    ensures && BookFault(cfg.srcBook, srcBook).None? && BookFault(cfg.rcvBook, rcvBook).None?
            && Acknowledged(srcBook, s.src.peer) == s.src.Mark() && Acknowledged(rcvBook, s.rcv.peer) == s.rcv.Mark() ==>
              DoOthers(cfg, s, srcBook, rcvBook) == s.(src := s.src.(book := srcBook), rcv := s.rcv.(book := rcvBook))
  {
    hide BookFault, Meaning;
  }

  /**
   * A snapshot the receiver can take: installed, it replaces journal, checkpoint and store; stopped between the renames it
   * leaves all of them, and a directory that opens only if the snapshot sits at the journal's floor.
   */
  lemma InstallEffects(env: Env, rcv: Receiver, c: Checkpoint)
    requires ApplySnapshotTo(env, rcv.blobs, rcv.log, c).Ok?
    ensures WithSnapshot(env, rcv, c, false) ==
            rcv.(log := Log(c.watermark, []), checkpoint := Some(Listed(c)), stranded := false, view := ViewOf(Listed(c).records),
                 work := Installed(c.watermark))
    ensures WithSnapshot(env, rcv, c, true) ==
            if c.watermark == rcv.log.floor then rcv.(checkpoint := Some(Listed(c)), stranded := false) else rcv.(stranded := true)
  {
    hide ApplySnapshotTo, SnapshotOf, Listable, CheckpointBytes;
    ApplySnapshotExactly(env, rcv.blobs, rcv.log, c);
  }

  // ---- the invariant ----

  /** b is the stretch of h in (From, To]. */
  ghost predicate GoodBatch(h: seq<Record>, b: Batch) {
    && b.from.Le(b.to) && b.to.Le(Tip(h))
    && Cut(h, b.from) <= Cut(h, b.to) && b.records == h[Cut(h, b.from)..Cut(h, b.to)]
  }

  /** c is the state of h at its watermark. */
  ghost predicate GoodSnapshot(h: seq<Record>, c: Checkpoint) {
    c.watermark.Le(Tip(h)) && ViewOf(c.records) == Fold(h, c.watermark)
  }

  ghost predicate GoodFrame(h: seq<Record>, top: Version, f: Frame) {
    match f
    case BatchFrame(b) => GoodBatch(h, b)
    case SnapshotFrame(c) => GoodSnapshot(h, c)
    case AckFrame(v) => v.Le(top)
  }

  ghost predicate SourceInv(env: Env, src: Source) {
    var h := src.history;
    && Tracks(h, src.log)
    && Storable(env, src.log) && Matches(env, src.checkpoint, src.log)
    && (src.checkpoint.Some? ==> GoodSnapshot(h, src.checkpoint.value))
    && (src.session.Some? ==> GoodSnapshot(h, src.session.value))
  }

  /** The records of b before done have reached the receiver's journal or its past. */
  ghost predicate TakingInv(h: seq<Record>, b: Batch, done: nat, tail: Version) {
    && GoodBatch(h, b) && b.to == LastOf(b.from, b.records) && done <= |b.records| && b.from.Le(tail)
    && (done > 0 ==> b.records[done - 1].version.Le(tail))
  }

  ghost predicate WorkInv(h: seq<Record>, rcv: Receiver) {
    match rcv.work
    case Idle => true
    case Down => true
    case Installed(w) => w.Le(rcv.log.Last())
    case Taking(b, done) => TakingInv(h, b, done, rcv.log.Last())
  }

  /** The receiver's store is the source history folded up to the receiver's journal tail. */
  ghost predicate FoldInv(h: seq<Record>, log: Log, view: View) {
    log.Last().Le(Tip(h)) && view == Fold(h, log.Last())
  }

  /** The receiver's files stand for its store. */
  ghost predicate DurableInv(env: Env, checkpoint: Option<Checkpoint>, log: Log, view: View) {
    Storable(env, log) && Matches(env, checkpoint, log) && Meaning(checkpoint, log) == view
  }

  ghost predicate ReceiverInv(env: Env, h: seq<Record>, rcv: Receiver) {
    && FoldInv(h, rcv.log, rcv.view) && DurableInv(env, rcv.checkpoint, rcv.log, rcv.view)
    && rcv.Mark().Le(rcv.log.Last()) && WorkInv(h, rcv)
  }

  /** Both books are well formed and the source never believes the receiver to be further than it has recorded. */
  ghost predicate BooksInv(cfg: Config, s: System) {
    && BookFault(cfg.srcBook, s.src.book).None? && BookFault(cfg.rcvBook, s.rcv.book).None?
    && s.src.Mark().Le(s.rcv.Mark())
  }

  ghost predicate Inv(cfg: Config, s: System) {
    && HeaderBytes <= cfg.rcv.maxJournalBytes && 0 <= cfg.rcv.maxJournalEntries
    && SourceInv(cfg.src, s.src) && ReceiverInv(cfg.rcv, s.src.history, s.rcv) && BooksInv(cfg, s)
    && forall f :: f in s.net ==> GoodFrame(s.src.history, s.rcv.Mark(), f)
  }

  ghost predicate Init(cfg: Config, s: System) {
    && HeaderBytes <= cfg.src.maxJournalBytes && 0 <= cfg.src.maxJournalEntries
    && HeaderBytes <= cfg.rcv.maxJournalBytes && 0 <= cfg.rcv.maxJournalEntries
    && s.src == Source([], Log(Zero, []), None, s.src.peer, s.src.book, None)
    && s.rcv.log == Log(Zero, []) && s.rcv.checkpoint.None? && !s.rcv.stranded && s.rcv.view == map[]
    && s.rcv.work.Idle? && s.net == {} && NewPeers(cfg, s)
  }

  /** Neither book has an entry for the other node; other peers may have theirs. */
  ghost predicate NewPeers(cfg: Config, s: System) {
    && BookFault(cfg.srcBook, s.src.book).None? && BookFault(cfg.rcvBook, s.rcv.book).None?
    && s.src.Mark() == Zero && s.rcv.Mark() == Zero
  }

  lemma InitInv(cfg: Config, s: System)
    requires Init(cfg, s)
    ensures Inv(cfg, s)
  {
  }

  // ---- source steps ----

  lemma GrowFrame(h: seq<Record>, r: Record, top: Version, f: Frame)
    requires Increasing(Zero, h) && Tip(h).Lt(r.version) && GoodFrame(h, top, f)
    ensures GoodFrame(h + [r], top, f)
  {
    match f
    case BatchFrame(b) => GrowBatch(h, r, b);
    case SnapshotFrame(c) => CutGrow(h, r, c.watermark);
    case AckFrame(_) =>
  }

  lemma GrowBatch(h: seq<Record>, r: Record, b: Batch)
    requires Increasing(Zero, h) && Tip(h).Lt(r.version) && GoodBatch(h, b)
    ensures GoodBatch(h + [r], b)
  {
    CutGrow(h, r, b.from);
    CutGrow(h, r, b.to);
    assert (h + [r])[Cut(h, b.from)..Cut(h, b.to)] == h[Cut(h, b.from)..Cut(h, b.to)];
  }

  lemma MutateSource(env: Env, src: Source, r: Record)
    requires SourceInv(env, src) && AppendTo(env, src.log, r).Ok?
    ensures Tip(src.history).Lt(r.version)
    ensures SourceInv(env, src.(history := src.history + [r], log := AppendTo(env, src.log, r).value))
  {
    TracksLast(src.history, src.log);
    TracksAppend(src.history, src.log, r);
    AppendStorable(env, src.log, r);
    if src.checkpoint.Some? {
      CutGrow(src.history, r, src.checkpoint.value.watermark);
    }
    if src.session.Some? {
      CutGrow(src.history, r, src.session.value.watermark);
    }
  }

  lemma MutatePreserves(cfg: Config, s: System, r: Record)
    requires Inv(cfg, s)
    ensures Inv(cfg, DoMutate(cfg, s, r))
  {
    hide DurableInv, BookFault, Storable, Matches, GoodSnapshot, AppendTo;
    if AppendTo(cfg.src, s.src.log, r).Err? {
      return;
    }
    var h := s.src.history;
    MutateSource(cfg.src, s.src, r);
    forall f | f in s.net ensures GoodFrame(h + [r], s.rcv.Mark(), f) {
      GrowFrame(h, r, s.rcv.Mark(), f);
    }
    CutGrow(h, r, s.rcv.log.Last());
    if s.rcv.work.Taking? {
      GrowBatch(h, r, s.rcv.work.batch);
    }
  }

  lemma CompactSourceInv(env: Env, src: Source, q: CompactionRequest)
    requires SourceInv(env, src) && q.base == src.checkpoint && CompactTo(env, src.log, q).Ok?
    ensures SourceInv(env, src.(log := CompactTo(env, src.log, q).value.1,
                                checkpoint := Some(CompactTo(env, src.log, q).value.0)))
  {
    MatchedCompaction(env, src.checkpoint, src.log, q);
    CompactionOutput(env, src.checkpoint, src.log, q);
    TracksLast(src.history, src.log);
    TracksRest(src.history, src.log, q.watermark);
    CompactedView(env, src, q);
  }

  /** The checkpoint a compaction writes is the state of the history at its watermark. */
  lemma CompactedView(env: Env, src: Source, q: CompactionRequest)
    requires SourceInv(env, src) && q.base == src.checkpoint && CompactTo(env, src.log, q).Ok?
    ensures ViewOf(CompactTo(env, src.log, q).value.0.records) == Fold(src.history, q.watermark)
  {
    CompactionOutput(env, src.checkpoint, src.log, q);
    BaseFold(env, src);
    PrefixFold(src.history, src.log, q.watermark);
    FoldKeyed(src.history, q.watermark);
    SnapshotRoundTrip(Fold(src.history, q.watermark));
  }

  lemma TracksRest(h: seq<Record>, log: Log, w: Version)
    requires Tracks(h, log) && log.floor.Le(w) && w.Le(Tip(h))
    ensures Tracks(h, Log(w, log.records[Cut(log.records, w)..]))
  {
    TracksCut(h, log, w);
    var c, n := Cut(h, log.floor), Cut(log.records, w);
    SliceOfRest(h, c, n, |h| - c);
  }

  lemma PrefixFold(h: seq<Record>, log: Log, w: Version)
    requires Tracks(h, log) && log.floor.Le(w)
    ensures MergeAll(Fold(h, log.floor), log.records[..Cut(log.records, w)]) == Fold(h, w)
  {
    TracksCut(h, log, w);
    FoldStretch(h, log.floor, w);
    var c, n := Cut(h, log.floor), Cut(log.records, w);
    SliceOfRest(h, c, 0, n);
  }

  lemma BaseFold(env: Env, src: Source)
    requires SourceInv(env, src)
    ensures Meaning(src.checkpoint, Log(src.log.floor, [])) == Fold(src.history, src.log.floor)
  {
    if src.checkpoint.None? {
      CutUnique(src.history, Zero, 0);
    }
  }

  lemma CompactPreserves(cfg: Config, s: System, q: CompactionRequest)
    requires Inv(cfg, s)
    ensures Inv(cfg, DoCompact(cfg, s, q))
  {
    if q.base == s.src.checkpoint && CompactTo(cfg.src, s.src.log, q).Ok? {
      CompactSourceInv(cfg.src, s.src, q);
    }
  }

  lemma SendPreserves(cfg: Config, s: System)
    requires Inv(cfg, s)
    ensures Inv(cfg, DoSend(cfg, s))
  {
    hide SourceInv, ReceiverInv, PlanRepair, PlanBytes, GoodFrame, BookFault;
    if PlanRepair(cfg.srcRepair, s.src.log, s.src.Mark(), s.src.session).Ok? {
      PlanIsGood(cfg, s);
    }
  }

  lemma PlanIsGood(cfg: Config, s: System)
    requires Inv(cfg, s) && PlanRepair(cfg.srcRepair, s.src.log, s.src.Mark(), s.src.session).Ok?
    ensures GoodFrame(s.src.history, s.rcv.Mark(),
                      FrameOf(PlanRepair(cfg.srcRepair, s.src.log, s.src.Mark(), s.src.session).value))
  {
    hide DurableInv, WorkInv, Fold, BookFault, SelectBatch, Matches;
    var src := s.src;
    if src.Mark().Lt(src.log.floor) {
      NormalizeOk(cfg.srcRepair.env, src.session.value);
    } else {
      BatchIsStretch(EncoderOf(cfg.srcRepair), src.history, src.log, src.Mark());
    }
  }

  /** What the source selects from its journal is a stretch of its whole history. */
  lemma BatchIsStretch(encode: Encoder, h: seq<Record>, log: Log, from: Version)
    requires Tracks(h, log) && Increasing(log.floor, log.records) && from.Le(Tip(h))
    requires SelectBatch(encode, log, from).Ok?
    ensures GoodBatch(h, SelectBatch(encode, log, from).value)
  {
    var b := SelectBatch(encode, log, from).value;
    SelectedBatch(encode, log, from);
    TracksLast(h, log);
    TracksStretch(h, log, b.from, b.to);
  }

  // ---- receiver steps ----

  /** Where the next record of a batch being taken sits in the history, relative to the receiver's tail. */
  lemma NextInBatch(h: seq<Record>, b: Batch, done: nat, tail: Version)
    requires Increasing(Zero, h) && TakingInv(h, b, done, tail) && done < |b.records|
    ensures var i := Cut(h, b.from) + done;
            i < |h| && h[i] == b.records[done] && i <= Cut(h, tail)
  {
    var i := Cut(h, b.from) + done;
    if done == 0 {
      CutMonotone(h, b.from, tail);
    } else {
      assert b.records[done - 1] == h[i - 1];
      CutBelow(h, tail, i - 1);
    }
  }

  lemma ApplyRecordShape(env: Env, blobs: set<seq<byte>>, p: Replica, r: Record)
    requires ApplyRecord(env, blobs, p, r).Ok?
    ensures var q, c := ApplyRecord(env, blobs, p, r).value.0, Classify(r, Lookup(p.view, KeyOf(r)));
            && c.Ok?
            && (if !c.value.outcome.Applied? then q == p
                else AppendTo(env, p.log, r) == Ok(q.log) && q.view == Merge(p.view, r) && q.log.Last() == r.version)
  {
    assert (p.log.records + [r])[|p.log.records|] == r;
  }

  lemma ApplyRepeated(env: Env, blobs: set<seq<byte>>, h: seq<Record>, p: Replica, i: nat)
    requires Increasing(Zero, h) && p.view == Fold(h, p.log.Last()) && i < Cut(h, p.log.Last())
    requires ApplyRecord(env, blobs, p, h[i]).Ok?
    ensures ApplyRecord(env, blobs, p, h[i]).value.0 == p && h[i].version.Le(p.log.Last())
  {
    ApplyRecordShape(env, blobs, p, h[i]);
    FoldAgain(h, p.log.Last(), i);
    CutBelow(h, p.log.Last(), i);
  }

  lemma ApplyNew(env: Env, blobs: set<seq<byte>>, h: seq<Record>, p: Replica, i: nat)
    requires Increasing(Zero, h) && p.view == Fold(h, p.log.Last()) && i == Cut(h, p.log.Last()) && i < |h|
    requires ApplyRecord(env, blobs, p, h[i]).Ok?
    ensures var q := ApplyRecord(env, blobs, p, h[i]).value.0;
            && q.log.Last() == h[i].version && p.log.Last().Lt(h[i].version) && q.view == Fold(h, h[i].version)
  {
    ApplyRecordShape(env, blobs, p, h[i]);
    FoldNext(h, p.log.Last());
  }

  /** Applying a record at or next after the fold either changes nothing or extends the fold by that record. */
  lemma ApplyFold(env: Env, blobs: set<seq<byte>>, h: seq<Record>, p: Replica, i: nat)
    requires Increasing(Zero, h) && FoldInv(h, p.log, p.view) && i < |h| && i <= Cut(h, p.log.Last())
    requires ApplyRecord(env, blobs, p, h[i]).Ok?
    ensures var q := ApplyRecord(env, blobs, p, h[i]).value.0;
            FoldInv(h, q.log, q.view) && h[i].version.Le(q.log.Last()) && p.log.Last().Le(q.log.Last())
  {
    if i < Cut(h, p.log.Last()) {
      ApplyRepeated(env, blobs, h, p, i);
    } else {
      ApplyNew(env, blobs, h, p, i);
      BelowTip(h, i);
    }
  }

  lemma BelowTip(h: seq<Record>, i: nat)
    requires Increasing(Zero, h) && i < |h|
    ensures h[i].version.Le(Tip(h))
  {
    assert i < |h| - 1 ==> h[i].version.Lt(h[|h| - 1].version);
  }

  lemma AppendDurable(env: Env, checkpoint: Option<Checkpoint>, log: Log, view: View, r: Record)
    requires DurableInv(env, checkpoint, log, view) && AppendTo(env, log, r).Ok?
    ensures DurableInv(env, checkpoint, AppendTo(env, log, r).value, Merge(view, r))
  {
    AppendStorable(env, log, r);
    assert (log.records + [r])[..|log.records|] == log.records;
  }

  lemma AdvancedInv(env: Env, h: seq<Record>, rcv: Receiver)
    requires Increasing(Zero, h) && ReceiverInv(env, h, rcv)
    ensures ReceiverInv(env, h, Advanced(env, rcv)) && rcv.log.Last().Le(Advanced(env, rcv).log.Last())
  {
    if rcv.work.Taking? && rcv.work.done < |rcv.work.batch.records| {
      var p, b, done := Replica(rcv.log, rcv.view), rcv.work.batch, rcv.work.done;
      if ApplyRecord(env, rcv.blobs, p, b.records[done]).Ok? {
        AppliedFold(env, rcv.blobs, h, p, b, done);
        AppliedDurable(env, rcv.blobs, rcv.checkpoint, p, b.records[done]);
      }
    }
  }

  lemma AppliedFold(env: Env, blobs: set<seq<byte>>, h: seq<Record>, p: Replica, b: Batch, done: nat)
    requires Increasing(Zero, h) && FoldInv(h, p.log, p.view)
    requires TakingInv(h, b, done, p.log.Last()) && done < |b.records|
    requires ApplyRecord(env, blobs, p, b.records[done]).Ok?
    ensures var q := ApplyRecord(env, blobs, p, b.records[done]).value.0;
            FoldInv(h, q.log, q.view) && TakingInv(h, b, done + 1, q.log.Last()) && p.log.Last().Le(q.log.Last())
  {
    hide Fold, ApplyRecord;
    NextInBatch(h, b, done, p.log.Last());
    ApplyFold(env, blobs, h, p, Cut(h, b.from) + done);
  }

  lemma AppliedDurable(env: Env, blobs: set<seq<byte>>, checkpoint: Option<Checkpoint>, p: Replica, r: Record)
    requires DurableInv(env, checkpoint, p.log, p.view) && ApplyRecord(env, blobs, p, r).Ok?
    ensures var q := ApplyRecord(env, blobs, p, r).value.0; DurableInv(env, checkpoint, q.log, q.view)
  {
    ApplyRecordShape(env, blobs, p, r);
    if AppendTo(env, p.log, r).Ok? {
      AppendDurable(env, checkpoint, p.log, p.view, r);
    }
  }

  lemma WithSnapshotInv(env: Env, h: seq<Record>, rcv: Receiver, c: Checkpoint, interrupted: bool)
    requires ReceiverInv(env, h, rcv) && GoodSnapshot(h, c)
    requires HeaderBytes <= env.maxJournalBytes && 0 <= env.maxJournalEntries
    ensures ReceiverInv(env, h, WithSnapshot(env, rcv, c, interrupted))
    ensures rcv.log.Last().Le(WithSnapshot(env, rcv, c, interrupted).log.Last())
  {
    hide Storable, NormalForm, Fold;
    if ApplySnapshotTo(env, rcv.blobs, rcv.log, c).Ok? {
      ApplySnapshotInstalls(env, rcv.blobs, rcv.log, c);
      if interrupted && c.watermark == rcv.log.floor {
        EmptyAtFloor(env, rcv.log);
      }
    }
  }

  lemma EmptyAtFloor(env: Env, log: Log)
    requires Storable(env, log) && log.Last().Le(log.floor)
    ensures log.records == []
  {
  }

  lemma RaiseTop(h: seq<Record>, net: set<Frame>, top: Version, top': Version)
    requires top.Le(top') && forall f :: f in net ==> GoodFrame(h, top, f)
    ensures forall f :: f in net ==> GoodFrame(h, top', f)
  {
    forall f | f in net ensures GoodFrame(h, top', f) {
      assert GoodFrame(h, top, f);
    }
  }

  lemma FinishPreserves(cfg: Config, s: System, reply: bool, fails: bool)
    requires Inv(cfg, s)
    ensures Inv(cfg, DoFinish(cfg, s, reply, fails))
  {
    hide SourceInv, DurableInv, FoldInv, AcknowledgeTo, BookFault, TakingInv;
    if Target(s.rcv).Some? && CoordinatedAck(cfg.rcvBook, s.rcv.log.Last(), s.rcv.book, s.rcv.peer, Target(s.rcv).value).Ok? {
      var to := Target(s.rcv).value;
      AcknowledgeMeaning(cfg.rcvBook, s.rcv.book, s.rcv.peer, to);
      RaiseTop(s.src.history, s.net, s.rcv.Mark(), Finished(cfg.rcvBook, s.rcv, to).Mark());
    }
  }

  lemma BeginBatchPreserves(cfg: Config, s: System, b: Batch)
    requires Inv(cfg, s)
    ensures Inv(cfg, DoBegin(cfg, s, b))
  {
    hide SourceInv, DurableInv, ScanFault, Fold, BookFault;
    if BatchFrame(b) in s.net && Delivery(cfg.rcvRepair, b, s.rcv.Mark()) == Ok(Ready) {
      assert GoodFrame(s.src.history, s.rcv.Mark(), BatchFrame(b));
      assert TakingInv(s.src.history, b, 0, s.rcv.log.Last());
    }
  }

  lemma TakeAckPreserves(cfg: Config, s: System, v: Version, hello: bool)
    requires Inv(cfg, s)
    ensures Inv(cfg, DoTakeAck(cfg, s, v, hello))
  {
    hide SourceInv, ReceiverInv, AcknowledgeTo, ReconcileTo, BookFault;
    if AckFrame(v) in s.net {
      assert GoodFrame(s.src.history, s.rcv.Mark(), AckFrame(v));
      if AckedBook(cfg.srcBook, hello, s.src.log.Last(), s.src.book, s.src.peer, v).Ok? {
        if !hello {
          AcknowledgeMeaning(cfg.srcBook, s.src.book, s.src.peer, v);
        } else if !s.src.log.Last().IsZero() {
          ReconcileMeaning(cfg.srcBook, s.src.book, s.src.peer, v);
        }
      }
    }
    SourceBook(cfg, s, DoTakeAck(cfg, s, v, hello).src.book);
  }

  /** The source's journal does not depend on its book. */
  lemma SourceBook(cfg: Config, s: System, book: Book)
    requires SourceInv(cfg.src, s.src)
    ensures SourceInv(cfg.src, s.src.(book := book))
  {
  }

  lemma ForgetPreserves(cfg: Config, s: System)
    requires Inv(cfg, s)
    ensures Inv(cfg, DoForget(cfg, s))
  {
    hide SourceInv, ReceiverInv, ForgetTo, BookFault;
    if ForgetTo(cfg.srcBook, s.src.book, s.src.peer).Ok? {
      ForgetMeaning(cfg.srcBook, s.src.book, s.src.peer);
      SourceBook(cfg, s, ForgetTo(cfg.srcBook, s.src.book, s.src.peer).value);
    }
  }

  lemma ApplyNextPreserves(cfg: Config, s: System)
    requires Inv(cfg, s)
    ensures Inv(cfg, s.(rcv := Advanced(cfg.rcv, s.rcv)))
  {
    hide Increasing, GoodSnapshot, DurableInv, FoldInv, TakingInv, ApplyRecord, GoodFrame, BookFault, Storable, Matches;
    AdvancedInv(cfg.rcv, s.src.history, s.rcv);
  }

  /** What a receiver decodes from a snapshot frame is the same state. */
  lemma DecodedGood(re: RepairEnv, h: seq<Record>, bytes: nat, c: Checkpoint)
    requires GoodSnapshot(h, c) && DecodeSnapshot(re, bytes, c).Ok?
    ensures GoodSnapshot(h, DecodeSnapshot(re, bytes, c).value) && DecodeSnapshot(re, bytes, c).value.watermark == c.watermark
  {
    hide Normalize, Fold;
    NormalizeOk(re.env, c);
  }

  lemma TakeSnapshotPreserves(cfg: Config, s: System, c: Checkpoint, interrupted: bool)
    requires Inv(cfg, s)
    ensures Inv(cfg, DoSnapshot(cfg, s, c, interrupted))
  {
    hide SourceInv, ReceiverInv, GoodSnapshot, BookFault, DecodeSnapshot, ApplySnapshotTo;
    if SnapshotFrame(c) in s.net && DecodeSnapshot(cfg.rcvRepair, cfg.srcRepair.snapshotBytes(c), c).Ok? {
      assert GoodFrame(s.src.history, s.rcv.Mark(), SnapshotFrame(c));
      DecodedGood(cfg.rcvRepair, s.src.history, cfg.srcRepair.snapshotBytes(c), c);
      var n := DecodeSnapshot(cfg.rcvRepair, cfg.srcRepair.snapshotBytes(c), c).value;
      WithSnapshotInv(cfg.rcv, s.src.history, s.rcv, n, interrupted);
    }
  }

  lemma AttachPreserves(cfg: Config, s: System)
    requires Inv(cfg, s)
    ensures Inv(cfg, s.(src := s.src.(session := s.src.checkpoint)))
  {
    hide ReceiverInv, Storable, GoodSnapshot, BookFault;
  }

  lemma RestartPreserves(cfg: Config, s: System)
    requires Inv(cfg, s)
    ensures Inv(cfg, DoRestart(s))
  {
    hide SourceInv, GoodFrame, FoldInv, Storable, BookFault;
  }

  lemma OthersPreserve(cfg: Config, s: System, srcBook: Book, rcvBook: Book)
    requires Inv(cfg, s)
    ensures Inv(cfg, DoOthers(cfg, s, srcBook, rcvBook))
  {
    hide SourceInv, FoldInv, DurableInv, BookFault;
    SourceBook(cfg, s, srcBook);
  }

  lemma GreetPreserves(cfg: Config, s: System)
    requires Inv(cfg, s)
    ensures Inv(cfg, s.(net := WithAck(cfg, s.net, s.rcv.Mark())))
  {
    hide SourceInv, ReceiverInv, BookFault;
  }

  lemma ChangeBlobsPreserves(cfg: Config, s: System, now: set<seq<byte>>)
    requires Inv(cfg, s)
    ensures Inv(cfg, s.(rcv := s.rcv.(blobs := now)))
  {
    hide SourceInv, FoldInv, DurableInv, BookFault;
  }

  /** Every step keeps the invariant. */
  lemma StepPreserves(cfg: Config, s: System, step: Step)
    requires Inv(cfg, s)
    ensures Inv(cfg, After(cfg, s, step))
  {
    hide Inv, DoMutate, DoCompact, DoSend, DoTakeAck, DoForget, DoBegin, DoSnapshot, DoFinish, DoRestart, DoOthers,
      Advanced, WithAck;
    match step
    case Mutate(r) => MutatePreserves(cfg, s, r);
    case CompactSource(q) => CompactPreserves(cfg, s, q);
    case Attach => AttachPreserves(cfg, s);
    case SendRepair => SendPreserves(cfg, s);
    case TakeAck(v, hello) => TakeAckPreserves(cfg, s, v, hello);
    case ForgetReceiver => ForgetPreserves(cfg, s);
    case BeginBatch(b) => BeginBatchPreserves(cfg, s, b);
    case ApplyNext => ApplyNextPreserves(cfg, s);
    case TakeSnapshot(c, interrupted) => TakeSnapshotPreserves(cfg, s, c, interrupted);
    case Finish(reply, fails) => FinishPreserves(cfg, s, reply, fails);
    case Greet => GreetPreserves(cfg, s);
    case Restart => RestartPreserves(cfg, s);
    case ChangeBlobs(now) => ChangeBlobsPreserves(cfg, s, now);
    case OtherPeers(srcBook, rcvBook) => OthersPreserve(cfg, s, srcBook, rcvBook);
  }

  // ---- runs ----

  ghost function Run(cfg: Config, s: System, steps: seq<Step>): System {
    if steps == [] then s else After(cfg, Run(cfg, s, steps[..|steps| - 1]), steps[|steps| - 1])
  }

  lemma RunNothing(cfg: Config, s: System)
    ensures Run(cfg, s, []) == s
  {
  }

  lemma RunStep(cfg: Config, s: System, steps: seq<Step>, step: Step)
    ensures Run(cfg, s, steps + [step]) == After(cfg, Run(cfg, s, steps), step)
  {
    hide After;
    assert (steps + [step])[..|steps|] == steps;
  }

  /**
   * Repair safety. In every state of every run: the receiver's store is the source history folded up to
   * the receiver's journal tail, which the source has reached; its persisted watermark does not pass that
   * tail; no acknowledgement ever sent passes the persisted watermark; and the source never believes the
   * receiver to be further than it durably is. A restart rebuilds the very same store.
   */
  ghost predicate Safe(s: System) {
    && s.rcv.view == Fold(s.src.history, s.rcv.log.Last())
    && s.rcv.log.Last().Le(Tip(s.src.history))
    && s.rcv.Mark().Le(s.rcv.log.Last())
    && (forall v :: AckFrame(v) in s.net ==> v.Le(s.rcv.Mark()))
    && s.src.Mark().Le(s.rcv.Mark())
    && Meaning(s.rcv.checkpoint, s.rcv.log) == s.rcv.view
    && Meaning(s.src.checkpoint, s.src.log) == Fold(s.src.history, Tip(s.src.history))
  }

  lemma {:induction false} RepairSafety(cfg: Config, s: System, steps: seq<Step>)
    requires Init(cfg, s)
    ensures Inv(cfg, Run(cfg, s, steps)) && Safe(Run(cfg, s, steps))
  {
    if steps == [] {
      InitInv(cfg, s);
    } else {
      RepairSafety(cfg, s, steps[..|steps| - 1]);
      StepPreserves(cfg, Run(cfg, s, steps[..|steps| - 1]), steps[|steps| - 1]);
    }
    InvSafe(cfg, Run(cfg, s, steps));
  }

  lemma InvSafe(cfg: Config, s: System)
    requires Inv(cfg, s)
    ensures Safe(s)
  {
    forall v | AckFrame(v) in s.net ensures v.Le(s.rcv.Mark()) {
      assert GoodFrame(s.src.history, s.rcv.Mark(), AckFrame(v));
    }
    SourceMeaning(cfg.src, s.src);
  }

  lemma SourceMeaning(env: Env, src: Source)
    requires SourceInv(env, src)
    ensures Meaning(src.checkpoint, src.log) == Fold(src.history, Tip(src.history))
  {
    BaseFold(env, src);
    PrefixFold(src.history, src.log, Tip(src.history));
    TracksCut(src.history, src.log, Tip(src.history));
    CutTip(src.history, Tip(src.history));
    assert src.log.records[..|src.log.records|] == src.log.records;
  }

  lemma SnapshotMonotone(cfg: Config, s: System, c: Checkpoint, interrupted: bool)
    requires Inv(cfg, s)
    ensures s.rcv.log.Last().Le(DoSnapshot(cfg, s, c, interrupted).rcv.log.Last())
    ensures DoSnapshot(cfg, s, c, interrupted).rcv.Mark() == s.rcv.Mark()
  {
    hide SourceInv, ReceiverInv, GoodSnapshot, BookFault, DecodeSnapshot, ApplySnapshotTo;
    if SnapshotFrame(c) in s.net && DecodeSnapshot(cfg.rcvRepair, cfg.srcRepair.snapshotBytes(c), c).Ok? {
      assert GoodFrame(s.src.history, s.rcv.Mark(), SnapshotFrame(c));
      DecodedGood(cfg.rcvRepair, s.src.history, cfg.srcRepair.snapshotBytes(c), c);
      var n := DecodeSnapshot(cfg.rcvRepair, cfg.srcRepair.snapshotBytes(c), c).value;
      WithSnapshotInv(cfg.rcv, s.src.history, s.rcv, n, interrupted);
    }
  }

  lemma AdvancedMonotone(cfg: Config, s: System)
    requires Inv(cfg, s)
    ensures s.rcv.log.Last().Le(Advanced(cfg.rcv, s.rcv).log.Last())
    ensures s.rcv.Mark() == Advanced(cfg.rcv, s.rcv).Mark()
  {
    hide DurableInv, FoldInv, TakingInv, ApplyRecord, GoodFrame, BookFault, Matches;
    AdvancedInv(cfg.rcv, s.src.history, s.rcv);
  }

  lemma FinishMonotone(cfg: Config, s: System, reply: bool, fails: bool)
    requires Inv(cfg, s)
    ensures s.rcv.Mark().Le(DoFinish(cfg, s, reply, fails).rcv.Mark())
  {
    hide SourceInv, ReceiverInv, AcknowledgeTo, BookFault;
    if Target(s.rcv).Some? && CoordinatedAck(cfg.rcvBook, s.rcv.log.Last(), s.rcv.book, s.rcv.peer, Target(s.rcv).value).Ok? {
      AcknowledgeMeaning(cfg.rcvBook, s.rcv.book, s.rcv.peer, Target(s.rcv).value);
    }
  }

  /** The receiver's persisted watermark and journal tail never move back. */
  lemma ReceiverMonotone(cfg: Config, s: System, step: Step)
    requires Inv(cfg, s)
    ensures s.rcv.Mark().Le(After(cfg, s, step).rcv.Mark())
    ensures s.rcv.log.Last().Le(After(cfg, s, step).rcv.log.Last())
  {
    hide Inv, AppendTo, CompactTo, PlanRepair, Delivery, Meaning, DecodeFault, AckedBook, BookFault;
    match step
    case ApplyNext => AdvancedMonotone(cfg, s);
    case TakeSnapshot(c, interrupted) => SnapshotMonotone(cfg, s, c, interrupted);
    case Finish(reply, fails) => FinishMonotone(cfg, s, reply, fails);
    case _ =>
  }
}
