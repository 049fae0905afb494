/** A node over its whole life: mutations, compactions, openings, and crashes at any point inside them. */
module Lifetimes {
  import opened Bytes
  import opened Versions
  import opened Outcomes
  import opened Records
  import opened Checkpoints
  import opened Merging
  import opened Codec
  import opened Logs
  import opened Journals
  import opened Directory
  import opened Applying
  import opened Runtime

  /**
   * state is the node's memory while it is up, and the last durable state otherwise. history is every record that was
   * ever made durable. stranded is set while a compaction has stopped between its renames and none has completed since;
   * torn when the very first header was cut short.
   */
  datatype Node = Node(
    img: Image, up: bool, state: Opened, blobs: set<seq<byte>>, history: seq<Record>, stranded: bool, torn: bool)

  datatype Op = Opening | Mutating(r: Record) | Compacting(interrupted: bool)

  /** Done: the operation returns. Cut: the process dies in the operation's directory state number at. */
  datatype Event = Done(op: Op) | Cut(op: Op, at: nat) | Stop | NewBlobs(more: set<seq<byte>>)

  ghost predicate Fresh(n: Node) {
    n == Node(Image([], None), false, Opened(Log(Zero, []), None, map[]), n.blobs, [], false, false)
  }

  ghost predicate Enabled(env: Env, n: Node, op: Op) {
    match op
    case Opening => !n.up
    case Mutating(r) => n.up && n.state.log.Last().Lt(r.version) && Accepts(env, n.blobs, n.state.log, r)
    case Compacting(_) =>
      n.up && n.state.log.floor.Lt(n.state.log.Last()) && Keyed(n.state.view) && CheckpointBytes(env, Folded(n.state)).Ok?
  }

  /** The directory between and after a compaction's renames. */
  ghost function Window(env: Env, o: Opened): Image
    requires Keyed(o.view) && CheckpointBytes(env, Folded(o)).Ok?
  {
    Image(JournalBytes(env, o.log), Some(CheckpointBytes(env, Folded(o)).value))
  }

  ghost function Renamed(env: Env, o: Opened): Image
    requires Keyed(o.view) && CheckpointBytes(env, Folded(o)).Ok?
  {
    Image(JournalBytes(env, Compacted(o).log), Some(CheckpointBytes(env, Folded(o)).value))
  }

  /** The directory states the operation passes through. */
  ghost function Trace(env: Env, n: Node, op: Op): seq<Image>
    requires Enabled(env, n, op)
  {
    match op
    case Opening => OpenTrace(env, n.img.journal, n.img.checkpoint)
    case Mutating(r) => AppendTrace(env, n.state.log, r, n.img.checkpoint)
    case Compacting(interrupted) => RenameTrace(Window(env, n.state), Renamed(env, n.state), interrupted)
  }

  ghost function Mutate(env: Env, n: Node, r: Record): Node {
    n.(img := Image(JournalBytes(env, Taken(n.state, r).log), n.img.checkpoint),
       state := Taken(n.state, r), history := n.history + [r])
  }

  ghost function Compact(env: Env, n: Node): Node
    requires Enabled(env, n, Compacting(false))
  {
    n.(img := Renamed(env, n.state), state := Compacted(n.state), stranded := false)
  }

  ghost function Open(env: Env, n: Node): Node {
    var left := n.(img := Image(Left(env, n.img.journal), n.img.checkpoint));
    match Reopen(env, n.blobs, n.img)
    case Err(_) => left
    case Ok(o) => left.(up := true, state := o)
  }

  ghost function DoneAfter(env: Env, n: Node, op: Op): Node
    requires Enabled(env, n, op)
  {
    match op
    case Opening => Open(env, n)
    case Mutating(r) => Mutate(env, n, r)
    case Compacting(interrupted) =>
      if interrupted then n.(img := Window(env, n.state), stranded := true) else Compact(env, n)
  }

  ghost function CutAfter(env: Env, n: Node, op: Op, at: nat): Node
    requires Enabled(env, n, op) && at < |Trace(env, n, op)|
  {
    var img := Trace(env, n, op)[at];
    var last := at == |Trace(env, n, op)| - 1;
    match op
    case Opening => n.(img := img, torn := n.torn || (n.img.journal == [] && at < HeaderBytes - 1))
    case Mutating(r) => (if last then Mutate(env, n, r) else n).(img := img, up := false)
    case Compacting(_) => (if at == 1 then Compact(env, n) else n.(stranded := true)).(img := img, up := false)
  }

  ghost function After(env: Env, n: Node, e: Event): Node {
    match e
    case Done(op) => if Enabled(env, n, op) then DoneAfter(env, n, op) else n
    case Cut(op, at) => if Enabled(env, n, op) && at < |Trace(env, n, op)| then CutAfter(env, n, op, at) else n
    case Stop => n.(up := false)
    case NewBlobs(more) => n.(blobs := n.blobs + more)
  }

  ghost function Run(env: Env, n: Node, es: seq<Event>): Node {
    if es == [] then n else After(env, Run(env, n, es[..|es| - 1]), es[|es| - 1])
  }

  // ---- the invariant ----

  /** The state is the history merged in order, and its tail is the history's. */
  ghost predicate Remembers(o: Opened, history: seq<Record>) {
    o.view == MergeAll(map[], history) && o.log.Last() == LastOf(Zero, history)
  }

  /** The files stand for the state, up to the two ways a crash can make them unreadable. */
  ghost predicate FilesInv(env: Env, n: Node) {
    && Produced(env, n.img)
    && (if n.torn then !n.up && !n.stranded && |n.img.journal| < HeaderBytes && OpenLog(env, n.img.journal) == Err(JournalCorrupt)
        else OpenLog(env, n.img.journal) == Ok(n.state.log))
    && (n.up ==> n.img.journal == JournalBytes(env, n.state.log))
    && (n.img.journal == [] ==> !n.up && !n.stranded)
    && (if n.stranded then Stranded(env, n.state.log.floor, n.img.checkpoint) else OnFile(env, n.state.checkpoint, n.img.checkpoint))
  }

  ghost predicate Inv(env: Env, n: Node) {
    Settled(env, n.blobs, n.state) && Remembers(n.state, n.history) && FilesInv(env, n)
  }

  ghost predicate Usable(env: Env) {
    Sound(env) && HeaderBytes <= env.maxJournalBytes && 0 <= env.maxJournalEntries
  }

  lemma FreshInv(env: Env, n: Node)
    requires Usable(env) && Fresh(n)
    ensures Inv(env, n)
  {
    hide Sound;
    FreshLog(env);
    assert n.img.journal <= JournalBytes(env, Log(Zero, []));
  }

  /** What the files of such a node reopen to, exactly. */
  lemma Reopens(env: Env, n: Node)
    requires Usable(env) && Inv(env, n)
    ensures Reopen(env, n.blobs, n.img) ==
            if n.torn then Err(JournalCorrupt) else if n.stranded then Err(CheckpointFloorMismatch) else Ok(n.state)
  {
    hide Sound, Settled, Produced, JournalBytes, OpenLog, Restore, Stranded, OnFile;
    if !n.torn {
      ReopensTo(env, n.blobs, n.img, n.state);
    }
  }

  lemma RemembersOneMore(env: Env, blobs: set<seq<byte>>, o: Opened, history: seq<Record>, r: Record)
    requires Settled(env, blobs, o) && Remembers(o, history) && o.log.Last().Lt(r.version)
    ensures Remembers(Taken(o, r), history + [r])
  {
    hide Storable, Matches, Meaning, AllVerified, Keyed;
    SettledBounded(env, blobs, o);
    MergeNewer(o.view, o.log.Last(), r);
    assert (history + [r])[..|history|] == history;
  }

  lemma SettledBounded(env: Env, blobs: set<seq<byte>>, o: Opened)
    requires Settled(env, blobs, o)
    ensures Keyed(o.view) && Bounded(o.view, o.log.Last())
  {
    hide NormalForm, JournalBytes;
    MeaningBounded(env, o.checkpoint, o.log);
  }

  // ---- each operation keeps it ----

  lemma MutateCut(env: Env, n: Node, r: Record, at: nat)
    requires Usable(env) && Inv(env, n) && Enabled(env, n, Mutating(r)) && at < |Trace(env, n, Mutating(r))|
    ensures Inv(env, CutAfter(env, n, Mutating(r), at))
  {
    hide Sound, Settled, Remembers, Produced, JournalBytes, OpenLog, Stranded, OnFile, Accepts, Reopen, AppendTrace, AppendTo;
    var trace := AppendTrace(env, n.state.log, r, n.img.checkpoint);
    MutationCrash(env, n.blobs, n.state, r, n.img.checkpoint, at);
    RemembersOneMore(env, n.blobs, n.state, n.history, r);
    AppendCutOpens(env, n.blobs, n.state, r, n.img.checkpoint, at);
  }

  lemma AppendCutOpens(env: Env, blobs: set<seq<byte>>, o: Opened, r: Record, file: Option<seq<byte>>, at: nat)
    requires Sound(env) && Settled(env, blobs, o) && o.log.Last().Lt(r.version) && Accepts(env, blobs, o.log, r)
    requires at < |AppendTrace(env, o.log, r, file)|
    ensures var trace := AppendTrace(env, o.log, r, file);
            && trace[at].checkpoint == file && trace[at].journal != []
            && OpenLog(env, trace[at].journal) == Ok(if at == |trace| - 1 then Taken(o, r).log else o.log)
            && trace != [] && trace[|trace| - 1] == Image(JournalBytes(env, Taken(o, r).log), file)
  {
    hide Sound, Storable, Matches, Meaning, AllVerified, OpenLog, Validate, ApplyRecord, AppendTo;
    MutationApplies(env, blobs, o, r);
    AppendTraceOpens(env, o.log, r, file, at);
    AppendBytes(env, o.log, r);
    assert Entry(env, r)[..|Entry(env, r)|] == Entry(env, r);
  }

  lemma MutateDone(env: Env, n: Node, r: Record)
    requires Usable(env) && Inv(env, n) && Enabled(env, n, Mutating(r))
    ensures Inv(env, Mutate(env, n, r))
  {
    hide Sound, Settled, Remembers, Produced, JournalBytes, OpenLog, Stranded, OnFile, Accepts, Reopen, AppendTrace, AppendTo;
    var trace := AppendTrace(env, n.state.log, r, n.img.checkpoint);
    EntryNotEmpty(env, n.state.log, r, n.img.checkpoint);
    MutationCrash(env, n.blobs, n.state, r, n.img.checkpoint, |trace| - 1);
    RemembersOneMore(env, n.blobs, n.state, n.history, r);
    AppendCutOpens(env, n.blobs, n.state, r, n.img.checkpoint, |trace| - 1);
  }

  lemma EntryNotEmpty(env: Env, log: Log, r: Record, file: Option<seq<byte>>)
    ensures AppendTrace(env, log, r, file) != []
  {
  }

  lemma CompactCut(env: Env, n: Node, interrupted: bool)
    requires Usable(env) && Inv(env, n) && Enabled(env, n, Compacting(interrupted))
    ensures Inv(env, n.(img := Window(env, n.state), stranded := true))
    ensures Inv(env, Compact(env, n))
  {
    hide Sound, Settled, Produced, JournalBytes, OpenLog, Stranded, OnFile, Reopen, CheckpointBytes, SnapshotOf, Keyed, MergeAll;
    OwnCompactionCrash(env, n.blobs, n.state);
    SettledOpens(env, n.blobs, n.state);
    SettledOpens(env, n.blobs, Compacted(n.state));
  }

  lemma SettledOpens(env: Env, blobs: set<seq<byte>>, o: Opened)
    requires Sound(env) && Settled(env, blobs, o)
    ensures OpenLog(env, JournalBytes(env, o.log)) == Ok(o.log) && JournalBytes(env, o.log) != []
  {
    hide Sound, OpenLog, Matches, Meaning, AllVerified, WellFormed;
    OpenLogRoundTrip(env, o.log);
  }

  /** Inv does not depend on whether the node is up, as long as it goes down. */
  lemma Down(env: Env, n: Node)
    requires Inv(env, n)
    ensures Inv(env, n.(up := false))
  {
    hide Settled, Remembers, Produced, JournalBytes, OpenLog, Stranded, OnFile;
  }

  lemma OpenDone(env: Env, n: Node)
    requires Usable(env) && Inv(env, n) && !n.up
    ensures Inv(env, Open(env, n))
    ensures Open(env, n).up <==> !n.torn && !n.stranded
    ensures Open(env, n).state == n.state
  {
    hide Sound, Settled, Remembers, Produced, JournalBytes, OpenLog, Stranded, OnFile, Reopen, Left;
    Reopens(env, n);
    LeftOpens(env, n.img.journal);
    LeftProduced(env, n.img);
    if n.torn {
      LeftTorn(env, n.img.journal);
    }
  }

  lemma LeftTorn(env: Env, data: seq<byte>)
    requires HeaderBytes <= env.maxJournalBytes && |data| < HeaderBytes && OpenLog(env, data).Err?
    ensures Left(env, data) == data
  {
  }

  /** What an opening leaves is again something the program wrote, and is whole if the journal opened. */
  lemma LeftProduced(env: Env, img: Image)
    requires Usable(env) && Produced(env, img)
    ensures Produced(env, Image(Left(env, img.journal), img.checkpoint)) && Left(env, img.journal) != []
    ensures OpenLog(env, img.journal).Ok? ==> Left(env, img.journal) == JournalBytes(env, OpenLog(env, img.journal).value)
  {
    hide Sound, Storable, JournalBytes, WrittenCheckpoint, OpenLog, Parse;
    var written :| Storable(env, written) && img.journal <= JournalBytes(env, written);
    if OpenLog(env, img.journal).Ok? {
      ProducedJournal(env, img.journal, written);
    }
    if img.journal == [] {
      FreshLog(env);
      assert Left(env, img.journal) <= JournalBytes(env, Log(Zero, []));
    } else {
      LeftPrefix(env, img.journal);
      assert Left(env, img.journal) <= JournalBytes(env, written);
    }
  }

  lemma LeftPrefix(env: Env, data: seq<byte>)
    requires data != []
    ensures Left(env, data) <= data && Left(env, data) != []
  {
    hide Parse;
    if Parse(env, data).Ok? {
      ParseSound(env, data);
    }
  }

  lemma OpenCut(env: Env, n: Node, at: nat)
    requires Usable(env) && Inv(env, n) && !n.up && at < |Trace(env, n, Opening)|
    ensures Inv(env, CutAfter(env, n, Opening, at))
  {
    hide Sound, Settled, Remembers, JournalBytes, OpenLog, Stranded, OnFile, Reopen, Left, OpenTrace, Produced;
    OpenTraceOpens(env, n.img.journal, n.img.checkpoint, at);
    OpenTraceProduced(env, n.img, at);
    if n.torn {
      LeftTorn(env, n.img.journal);
      NoTrace(env, n.img.journal, n.img.checkpoint);
    }
  }

  lemma NoTrace(env: Env, data: seq<byte>, file: Option<seq<byte>>)
    ensures Left(env, data) == data ==> OpenTrace(env, data, file) == []
  {
  }

  lemma OpenTraceProduced(env: Env, img: Image, at: nat)
    requires Usable(env) && Produced(env, img) && at < |OpenTrace(env, img.journal, img.checkpoint)|
    ensures var cut := OpenTrace(env, img.journal, img.checkpoint)[at];
            && Produced(env, cut) && cut.journal != [] && cut.checkpoint == img.checkpoint
            && (img.journal == [] && at < HeaderBytes - 1 ==> |cut.journal| < HeaderBytes)
  {
    hide Sound, Storable, WrittenCheckpoint, OpenLog, Parse;
    var cut := OpenTrace(env, img.journal, img.checkpoint)[at];
    if img.journal == [] {
      FreshLog(env);
      assert cut.journal == EncodeHeader(env, Zero)[..at + 1];
      assert cut.journal <= JournalBytes(env, Log(Zero, []));
    } else {
      LeftProduced(env, img);
    }
  }

  lemma Step(env: Env, n: Node, e: Event)
    requires Usable(env) && Inv(env, n)
    ensures Inv(env, After(env, n, e)) && n.history <= After(env, n, e).history
  {
    hide Inv, Usable, Enabled, Trace, Open;
    match e
    case Done(op) => if Enabled(env, n, op) { StepDone(env, n, op); }
    case Cut(op, at) => if Enabled(env, n, op) && at < |Trace(env, n, op)| { StepCut(env, n, op, at); }
    case Stop => Down(env, n);
    case NewBlobs(more) => BlobsGrow(env, n, more);
  }

  lemma BlobsGrow(env: Env, n: Node, more: set<seq<byte>>)
    requires Inv(env, n)
    ensures Inv(env, n.(blobs := n.blobs + more))
  {
    hide Settled, Remembers, Produced, JournalBytes, OpenLog, Stranded, OnFile;
    MoreBlobs(env, n.blobs, n.blobs + more, n.state);
  }

  lemma StepDone(env: Env, n: Node, op: Op)
    requires Usable(env) && Inv(env, n) && Enabled(env, n, op)
    ensures Inv(env, DoneAfter(env, n, op)) && n.history <= DoneAfter(env, n, op).history
  {
    hide Inv, Usable, Accepts, CheckpointBytes, Reopen, Left, JournalBytes, Keyed;
    match op
    case Opening => OpenDone(env, n);
    case Mutating(r) => MutateDone(env, n, r);
    case Compacting(interrupted) => CompactCut(env, n, interrupted);
  }

  lemma StepCut(env: Env, n: Node, op: Op, at: nat)
    requires Usable(env) && Inv(env, n) && Enabled(env, n, op) && at < |Trace(env, n, op)|
    ensures Inv(env, CutAfter(env, n, op, at)) && n.history <= CutAfter(env, n, op, at).history
  {
    hide Inv, Usable, Accepts, CheckpointBytes, Reopen, Left, JournalBytes, Keyed, AppendTrace, OpenTrace;
    match op
    case Opening => OpenCut(env, n, at);
    case Mutating(r) => MutateCut(env, n, r, at);
    case Compacting(interrupted) =>
      CompactCut(env, n, interrupted);
      Down(env, n.(img := Window(env, n.state), stranded := true));
      Down(env, Compact(env, n));
  }

  /**
   * What the operations do: a record the node can take is added to history and store; a compaction moves the floor to the
   * tail and keeps the store; a cut mutation is part of the history exactly when its last byte was written.
   */
  lemma Effects(env: Env, n: Node, r: Record, at: nat)
    ensures n.up && n.state.log.Last().Lt(r.version) && Accepts(env, n.blobs, n.state.log, r) ==>
              var t := After(env, n, Done(Mutating(r)));
              && t.up && t.history == n.history + [r] && t.state.view == n.state.view[KeyOf(r) := r]
              && t.state.log.records == n.state.log.records + [r] && t.img.journal == JournalBytes(env, t.state.log)
    ensures n.up && n.state.log.Last().Lt(r.version) && Accepts(env, n.blobs, n.state.log, r) && at < |Entry(env, r)| ==>
              var t := After(env, n, Cut(Mutating(r), at));
              && !t.up && t.img == Image(JournalBytes(env, n.state.log) + Entry(env, r)[..at + 1], n.img.checkpoint)
              && t.history == if at == |Entry(env, r)| - 1 then n.history + [r] else n.history
    ensures n.up && n.state.log.floor.Lt(n.state.log.Last()) && Keyed(n.state.view) && CheckpointBytes(env, Folded(n.state)).Ok? ==>
              var t, cut := After(env, n, Done(Compacting(false))), After(env, n, Cut(Compacting(false), 1));
              && t.up && t.state.log == Log(n.state.log.Last(), []) && t.state.view == n.state.view && !t.stranded && !cut.stranded
              && After(env, n, Done(Compacting(true))).stranded && After(env, n, Cut(Compacting(false), 0)).stranded
    ensures After(env, n, Stop) == n.(up := false)
  {
    hide JournalBytes, Entry, CheckpointBytes, SnapshotOf, Accepts, Keyed;
  }

  /**
   * A node over its whole life. In every run from a new directory, through any mix of mutations, compactions, openings
   * and crashes at any point inside them: the store is exactly the records made durable, merged in order, so nothing
   * acknowledged is lost and nothing torn appears; what the directory would reopen to is exactly that state; and it
   * refuses to open only while a compaction has been stopped between its renames, or after the first header was torn.
   */
  lemma {:induction false} Lifetime(env: Env, n: Node, es: seq<Event>)
    requires Usable(env) && Fresh(n)
    ensures var t := Run(env, n, es);
            && Inv(env, t) && t.state.view == MergeAll(map[], t.history)
            && Reopen(env, t.blobs, t.img) ==
               if t.torn then Err(JournalCorrupt) else if t.stranded then Err(CheckpointFloorMismatch) else Ok(t.state)
  {
    hide Usable, After, Reopen, Fresh;
    if es == [] {
      FreshInv(env, n);
    } else {
      Lifetime(env, n, es[..|es| - 1]);
      Step(env, Run(env, n, es[..|es| - 1]), es[|es| - 1]);
    }
    Reopens(env, Run(env, n, es));
  }

  /** Once durable, always durable: the history of any earlier moment is a prefix of the history. */
  lemma {:induction false} NothingForgotten(env: Env, n: Node, es: seq<Event>, i: nat)
    requires Usable(env) && Fresh(n) && i <= |es|
    ensures Run(env, n, es[..i]).history <= Run(env, n, es).history
  {
    hide Usable, After, Fresh, Inv, Reopen;
    if i < |es| {
      var init := es[..|es| - 1];
      NothingForgotten(env, n, init, i);
      assert init[..i] == es[..i];
      Lifetime(env, n, init);
      Step(env, Run(env, n, init), es[|es| - 1]);
    } else {
      assert es[..i] == es;
    }
  }
}
