/** Durable per-peer acknowledgements and the coordinator in front of them (watermark.go). */
module Watermarks {
  import opened Bytes
  import opened Versions
  import opened Outcomes
  import opened Records
  import opened Codec

  type Peer = seq<byte>
  type Book = map<Peer, Version>

  /** Bounds as normalized() leaves them, and the JSON codec of the watermark file. */
  datatype BookEnv = BookEnv(
    env: Env, maxPeers: nat, maxPeerIDBytes: nat, maxBytes: nat,
    encode: Book -> seq<byte>, decode: seq<byte> -> Option<Book>)

  predicate ValidPeer(be: BookEnv, p: Peer) {
    0 < |p| <= be.maxPeerIDBytes && be.env.printable(p)
  }

  /** validateState */
  function BookFault(be: BookEnv, m: Book): Option<Error> {
    if |m| > be.maxPeers then Some(WatermarkLimit)
    else if exists p :: p in m && (!ValidPeer(be, p) || m[p].IsZero()) then Some(WatermarkCorrupt)
    else None
  }

  ghost predicate SoundBook(be: BookEnv) {
    forall m :: BookFault(be, m).None? ==> 0 < |be.encode(m)| < 0x1_0000_0000 && be.decode(be.encode(m)) == Some(m)
  }

  function OpenBook(be: BookEnv, file: Option<seq<byte>>): Result<Book> {
    match file
    case None => Ok(map[])
    case Some(data) =>
      if data == [] then Err(WatermarkCorrupt)
      else if |data| > be.maxBytes then Err(WatermarkLimit)
      else match OpenEnvelope(be.env, data, be.maxBytes, WatermarkCorrupt, WatermarkChecksum)
        case Err(e) => Err(e)
        case Ok(payload) =>
          match be.decode(payload)
          case None => Err(WatermarkCorrupt)
          case Some(m) => if BookFault(be, m).Some? then Err(BookFault(be, m).value) else Ok(m)
  }

  /** The zero version stands for a peer without an entry. */
  function Acknowledged(m: Book, p: Peer): Version {
    if p in m then m[p] else Zero
  }

  function FileOf(be: BookEnv, m: Book): seq<byte> {
    Envelope(be.env, be.encode(m))
  }

  /** persistLocked succeeds only within the file bound. */
  function Persistable(be: BookEnv, m: Book): Result<Book> {
    if |FileOf(be, m)| > be.maxBytes then Err(WatermarkLimit) else Ok(m)
  }

  function AcknowledgeTo(be: BookEnv, m: Book, p: Peer, v: Version): Result<Book> {
    if !ValidPeer(be, p) then Err(WatermarkPeerInvalid)
    else if v.IsZero() then Ok(m)
    else if v.Lt(Acknowledged(m, p)) then Err(WatermarkRegression)
    else if p in m && m[p] == v then Ok(m)
    else if p !in m && |m| >= be.maxPeers then Err(WatermarkLimit)
    else Persistable(be, m[p := v])
  }

  function ReconcileTo(be: BookEnv, m: Book, p: Peer, v: Version): Result<Book> {
    if !ValidPeer(be, p) then Err(WatermarkPeerInvalid)
    else if p in m && m[p] == v then Ok(m)
    else if v.IsZero() then Persistable(be, m - {p})
    else if p !in m && |m| >= be.maxPeers then Err(WatermarkLimit)
    else Persistable(be, m[p := v])
  }

  function ForgetTo(be: BookEnv, m: Book, p: Peer): Result<Book> {
    if !ValidPeer(be, p) then Err(WatermarkPeerInvalid)
    else if p !in m then Ok(m)
    else Persistable(be, m - {p})
  }

  /** What a book call reports: the refusal, or the failure of the file write when one is needed. */
  function Saved(outcome: Result<Book>, writes: bool, w: Write): Option<Error> {
    if outcome.Err? then Some(outcome.error) else if writes && !w.Landed? then Some(IOFailure) else None
  }

  /** The file afterwards: also a write that is reported as failed may have replaced it. */
  function SavedFile(be: BookEnv, file: Option<seq<byte>>, outcome: Result<Book>, writes: bool, w: Write): Option<seq<byte>> {
    if outcome.Ok? && writes && !w.Lost? then Some(FileOf(be, outcome.value)) else file
  }

  /** A needed write is reported as done exactly when it is known to have landed, and leaves the old file only when it was lost. */
  lemma SavedExactly(be: BookEnv, file: Option<seq<byte>>, m: Book, w: Write)
    ensures Saved(Ok(m), true, w) == (match w case Landed => None case Lost => Some(IOFailure) case LandedUnsynced => Some(IOFailure))
    ensures SavedFile(be, file, Ok(m), true, w) ==
            (match w case Landed => Some(FileOf(be, m)) case Lost => file case LandedUnsynced => Some(FileOf(be, m)))
    ensures Saved(Ok(m), false, w).None? && SavedFile(be, file, Ok(m), false, w) == file
    ensures forall e, writes :: Saved(Err(e), writes, w) == Some(e) && SavedFile(be, file, Err(e), writes, w) == file
  {
  }

  lemma BookRoundTrip(be: BookEnv, m: Book)
    requires SoundBook(be) && BookFault(be, m).None? && |FileOf(be, m)| <= be.maxBytes
    ensures OpenBook(be, Some(FileOf(be, m))) == Ok(m)
  {
    EnvelopeRoundTrip(be.env, be.encode(m), be.maxBytes, WatermarkCorrupt, WatermarkChecksum);
  }

  /** m' differs from m only at p, where it is v. */
  ghost predicate OnlyMoves(m: Book, m': Book, p: Peer, v: Version) {
    Acknowledged(m', p) == v && forall q :: q != p ==> Acknowledged(m', q) == Acknowledged(m, q)
  }

  /** An acknowledgement raises one peer to the greater of the two versions and keeps the book well formed. */
  lemma AcknowledgeMeaning(be: BookEnv, m: Book, p: Peer, v: Version)
    requires BookFault(be, m).None? && AcknowledgeTo(be, m, p, v).Ok?
    ensures var m' := AcknowledgeTo(be, m, p, v).value;
            BookFault(be, m').None? && OnlyMoves(m, m', p, Max(Acknowledged(m, p), v))
  {
    if !v.IsZero() && (p in m || |m| < be.maxPeers) {
      PutFault(be, m, p, v);
    }
  }

  /** Reconciling sets one peer to exactly the reported version. */
  lemma ReconcileMeaning(be: BookEnv, m: Book, p: Peer, v: Version)
    requires BookFault(be, m).None? && ReconcileTo(be, m, p, v).Ok?
    ensures var m' := ReconcileTo(be, m, p, v).value; BookFault(be, m').None? && OnlyMoves(m, m', p, v)
  {
    if v.IsZero() {
      DropFault(be, m, p);
    } else if p in m || |m| < be.maxPeers {
      PutFault(be, m, p, v);
    }
  }

  lemma ForgetMeaning(be: BookEnv, m: Book, p: Peer)
    requires BookFault(be, m).None? && ForgetTo(be, m, p).Ok?
    ensures var m' := ForgetTo(be, m, p).value; BookFault(be, m').None? && OnlyMoves(m, m', p, Zero)
  {
    DropFault(be, m, p);
  }

  // ---- when the book takes a call ----

  /** An identity is usable when it is there, short enough and printable. */
  lemma PeerExactly(be: BookEnv, p: Peer)
    ensures ValidPeer(be, p) <==> p != [] && |p| <= be.maxPeerIDBytes && be.env.printable(p)
  {
  }

  /** A book is well formed exactly when it is small enough and every entry has a usable identity and a version. */
  lemma BookExactly(be: BookEnv, m: Book)
    ensures BookFault(be, m).None? <==> |m| <= be.maxPeers && forall p :: p in m ==> ValidPeer(be, p) && m[p] != Zero
    ensures |m| > be.maxPeers ==> BookFault(be, m) == Some(WatermarkLimit)
    ensures |m| <= be.maxPeers && (exists p :: p in m && (!ValidPeer(be, p) || m[p] == Zero)) ==>
              BookFault(be, m) == Some(WatermarkCorrupt)
  {
    hide ValidPeer;
  }

  /** A file opens to a book exactly when it is the envelope, within the bound, of a well-formed one. */
  lemma OpenBookExactly(be: BookEnv, data: seq<byte>, m: Book)
    ensures OpenBook(be, None) == Ok(map[])
    ensures OpenBook(be, Some(data)) == Ok(m) <==>
            && |data| <= be.maxBytes && BookFault(be, m).None?
            && exists payload ::
                 0 < |payload| < 0x1_0000_0000 && data == Envelope(be.env, payload) && be.decode(payload) == Some(m)
    ensures 0 < |data| <= be.maxBytes && BadChecksum(be.env, data, be.maxBytes) ==>
              OpenBook(be, Some(data)) == Err(WatermarkChecksum)
  {
    hide OpenEnvelope, Envelope, BookFault, BadChecksum;
    var max := be.maxBytes;
    ChecksumExactly(be.env, data, max, WatermarkCorrupt, WatermarkChecksum);
    if OpenBook(be, Some(data)) == Ok(m) {
      var payload := OpenEnvelope(be.env, data, max, WatermarkCorrupt, WatermarkChecksum).value;
      EnvelopeExactly(be.env, data, max, WatermarkCorrupt, WatermarkChecksum, payload);
    }
    if payload :| |data| <= max && 0 < |payload| < 0x1_0000_0000 && data == Envelope(be.env, payload) && be.decode(payload) == Some(m) {
      EnvelopeExactly(be.env, data, max, WatermarkCorrupt, WatermarkChecksum, payload);
    }
  }

  /** There is room for an entry of p at v. */
  predicate Room(be: BookEnv, m: Book, p: Peer, v: Version) {
    (p in m || |m| < be.maxPeers) && |FileOf(be, m[p := v])| <= be.maxBytes
  }

  /**
   * An acknowledgement is taken exactly when it is at or above the entry and, if it changes it, there is room; a lower one
   * is a regression.
   */
  lemma AcknowledgeExactly(be: BookEnv, m: Book, p: Peer, v: Version)
    requires p in m ==> m[p] != Zero
    ensures var entry, res := Acknowledged(m, p), AcknowledgeTo(be, m, p, v);
            && (!ValidPeer(be, p) ==> res == Err(WatermarkPeerInvalid))
            && (ValidPeer(be, p) && v == Zero ==> res == Ok(m))
            && (ValidPeer(be, p) && v != Zero && v.Lt(entry) ==> res == Err(WatermarkRegression))
            && (ValidPeer(be, p) && v != Zero && v == entry ==> res == Ok(m))
            && (ValidPeer(be, p) && entry.Lt(v) ==> res == if Room(be, m, p, v) then Ok(m[p := v]) else Err(WatermarkLimit))
  {
    hide ValidPeer, FileOf;
  }

  /** A reconciliation is taken whatever the entry, and a removal only needs the smaller file to fit. */
  lemma ReconcileExactly(be: BookEnv, m: Book, p: Peer, v: Version)
    requires p in m ==> m[p] != Zero
    ensures var entry, res := Acknowledged(m, p), ReconcileTo(be, m, p, v);
            && (!ValidPeer(be, p) ==> res == Err(WatermarkPeerInvalid))
            && (ValidPeer(be, p) && v != Zero && v == entry ==> res == Ok(m))
            && (ValidPeer(be, p) && v != Zero && v != entry ==>
                  res == if Room(be, m, p, v) then Ok(m[p := v]) else Err(WatermarkLimit))
            && (ValidPeer(be, p) && v == Zero ==>
                  res == if |FileOf(be, m - {p})| <= be.maxBytes then Ok(m - {p}) else Err(WatermarkLimit))
    ensures var res := ForgetTo(be, m, p);
            && (!ValidPeer(be, p) ==> res == Err(WatermarkPeerInvalid))
            && (ValidPeer(be, p) && p !in m ==> res == Ok(m))
            && (ValidPeer(be, p) && p in m ==>
                  res == if |FileOf(be, m - {p})| <= be.maxBytes then Ok(m - {p}) else Err(WatermarkLimit))
  {
    hide ValidPeer, FileOf;
  }

  class WatermarkBook {
    const be: BookEnv
    var watermarks: Book
    var file: Option<seq<byte>>

    ghost predicate Valid()
      reads this
    {
      SoundBook(be) && BookFault(be, watermarks).None? && OpenBook(be, file).Ok?
    }

    /** Memory is what the file reopens to. */
    ghost predicate Synced()
      reads this
    {
      OpenBook(be, file) == Ok(watermarks)
    }

    constructor (be: BookEnv, file: Option<seq<byte>>)
      requires SoundBook(be) && OpenBook(be, file).Ok?
      ensures Valid() && Synced() && this.be == be && this.file == file
    {
      this.be, this.file := be, file;
      watermarks := OpenBook(be, file).value;
    }

    /** persistLocked followed by publication of the new map. */
    method Persist(next: Book, w: Write) returns (err: Option<Error>)
      requires Valid() && BookFault(be, next).None?
      modifies this
      ensures Valid()
      ensures err == Saved(Persistable(be, next), true, w) && file == SavedFile(be, old(file), Persistable(be, next), true, w)
      ensures watermarks == if err.None? then next else old(watermarks)
      ensures file != old(file) ==> OpenBook(be, file) == Ok(next)
      ensures err.None? ==> Synced()
    {
      if Persistable(be, next).Err? {
        return Some(WatermarkLimit);
      }
      if w.Lost? {
        return Some(IOFailure);
      }
      BookRoundTrip(be, next);
      file := Some(FileOf(be, next));
      if w.LandedUnsynced? {
        return Some(IOFailure);
      }
      watermarks := next;
      err := None;
    }

    method Acknowledge(p: Peer, v: Version, w: Write) returns (err: Option<Error>)
      requires Valid()
      modifies this
      ensures Valid()
      ensures var outcome, writes := AcknowledgeTo(be, old(watermarks), p, v), !v.IsZero() && Acknowledged(old(watermarks), p) != v;
              && err == Saved(outcome, writes, w) && file == SavedFile(be, old(file), outcome, writes, w)
              && watermarks == (if err.None? then outcome.value else old(watermarks))
              && (file != old(file) ==> OpenBook(be, file) == outcome)
              && (if writes then err.None? ==> Synced() else old(Synced()) ==> Synced())
    {
      hide OpenBook, FileOf, SoundBook, BookFault, ValidPeer;
      if !ValidPeer(be, p) {
        return Some(WatermarkPeerInvalid);
      }
      if v.IsZero() {
        return None;
      }
      if v.Lt(Acknowledged(watermarks, p)) {
        return Some(WatermarkRegression);
      }
      if p in watermarks && watermarks[p] == v {
        return None;
      }
      if p !in watermarks && |watermarks| >= be.maxPeers {
        return Some(WatermarkLimit);
      }
      PutFault(be, watermarks, p, v);
      err := Persist(watermarks[p := v], w);
    }

    method Reconcile(p: Peer, v: Version, w: Write) returns (err: Option<Error>)
      requires Valid()
      modifies this
      ensures Valid()
      ensures var outcome, writes := ReconcileTo(be, old(watermarks), p, v), !(p in old(watermarks) && old(watermarks)[p] == v);
              && err == Saved(outcome, writes, w) && file == SavedFile(be, old(file), outcome, writes, w)
              && watermarks == (if err.None? then outcome.value else old(watermarks))
              && (file != old(file) ==> OpenBook(be, file) == outcome)
              && (if writes then err.None? ==> Synced() else old(Synced()) ==> Synced())
    {
      hide OpenBook, FileOf, SoundBook, BookFault, ValidPeer;
      if !ValidPeer(be, p) {
        return Some(WatermarkPeerInvalid);
      }
      if p in watermarks && watermarks[p] == v {
        return None;
      }
      if v.IsZero() {
        DropFault(be, watermarks, p);
        err := Persist(watermarks - {p}, w);
        return;
      }
      if p !in watermarks && |watermarks| >= be.maxPeers {
        return Some(WatermarkLimit);
      }
      PutFault(be, watermarks, p, v);
      err := Persist(watermarks[p := v], w);
    }

    method Forget(p: Peer, w: Write) returns (err: Option<Error>)
      requires Valid()
      modifies this
      ensures Valid()
      ensures var outcome, writes := ForgetTo(be, old(watermarks), p), p in old(watermarks);
              && err == Saved(outcome, writes, w) && file == SavedFile(be, old(file), outcome, writes, w)
              && watermarks == (if err.None? then outcome.value else old(watermarks))
              && (file != old(file) ==> OpenBook(be, file) == outcome)
              && (if writes then err.None? ==> Synced() else old(Synced()) ==> Synced())
    {
      hide OpenBook, FileOf, SoundBook, BookFault, ValidPeer;
      if !ValidPeer(be, p) {
        return Some(WatermarkPeerInvalid);
      }
      if p !in watermarks {
        return None;
      }
      DropFault(be, watermarks, p);
      err := Persist(watermarks - {p}, w);
    }
  }

  lemma PutFault(be: BookEnv, m: Book, p: Peer, v: Version)
    requires BookFault(be, m).None? && ValidPeer(be, p) && !v.IsZero() && (p in m || |m| < be.maxPeers)
    ensures BookFault(be, m[p := v]).None? && OnlyMoves(m, m[p := v], p, v)
  {
    assert m[p := v].Keys == m.Keys + {p};
    assert p in m ==> m[p := v].Keys == m.Keys;
  }

  lemma DropFault(be: BookEnv, m: Book, p: Peer)
    requires BookFault(be, m).None?
    ensures BookFault(be, m - {p}).None? && OnlyMoves(m, m - {p}, p, Zero)
  {
    assert (m - {p}).Keys == m.Keys - {p};
  }

  // ---- the coordinator ----

  /** RepairCoordinator.Acknowledge: nothing beyond the local journal tail is accepted. */
  function CoordinatedAck(be: BookEnv, tail: Version, m: Book, p: Peer, v: Version): Result<Book> {
    if !ValidPeer(be, p) then Err(WatermarkPeerInvalid)
    else if tail.Lt(v) then Err(RepairAcknowledgement)
    else AcknowledgeTo(be, m, p, v)
  }

  /** RepairCoordinator.Reconcile */
  function CoordinatedReconcile(be: BookEnv, tail: Version, m: Book, p: Peer, v: Version): Result<Book> {
    if !ValidPeer(be, p) then Err(WatermarkPeerInvalid)
    else if tail.Lt(v) then Err(RepairAcknowledgement)
    else ReconcileTo(be, m, p, v)
  }

  /** The coordinator lets through to the book exactly what the journal has reached. */
  lemma CoordinatorExactly(be: BookEnv, tail: Version, m: Book, p: Peer, v: Version)
    ensures ValidPeer(be, p) && tail.Lt(v) ==>
              && CoordinatedAck(be, tail, m, p, v) == Err(RepairAcknowledgement)
              && CoordinatedReconcile(be, tail, m, p, v) == Err(RepairAcknowledgement)
    ensures v.Le(tail) ==>
              && CoordinatedAck(be, tail, m, p, v) == AcknowledgeTo(be, m, p, v)
              && CoordinatedReconcile(be, tail, m, p, v) == ReconcileTo(be, m, p, v)
    ensures !ValidPeer(be, p) ==>
              && CoordinatedAck(be, tail, m, p, v) == Err(WatermarkPeerInvalid)
              && CoordinatedReconcile(be, tail, m, p, v) == Err(WatermarkPeerInvalid)
  {
    hide ValidPeer;
  }

  datatype BookEvent =
    | TailMoves(to: Version)
    | Acked(p: Peer, v: Version)
    | Reconciled(p: Peer, v: Version)
    | Forgotten(p: Peer)

  datatype BookState = BookState(tail: Version, book: Book)

  function Committed(s: BookState, r: Result<Book>): BookState {
    if r.Ok? then s.(book := r.value) else s
  }

  function BookAfter(be: BookEnv, s: BookState, e: BookEvent): BookState {
    match e
    case TailMoves(to) => if s.tail.Le(to) then s.(tail := to) else s
    case Acked(p, v) => Committed(s, CoordinatedAck(be, s.tail, s.book, p, v))
    case Reconciled(p, v) => Committed(s, CoordinatedReconcile(be, s.tail, s.book, p, v))
    case Forgotten(p) => Committed(s, ForgetTo(be, s.book, p))
  }

  /** What an event does to the book: what the tail covers and there is room for is recorded, the rest changes nothing. */
  lemma BookEffects(be: BookEnv, s: BookState, p: Peer, v: Version)
    requires ValidPeer(be, p) && (p in s.book ==> s.book[p] != Zero)
    ensures s.tail.Le(v) ==> BookAfter(be, s, TailMoves(v)) == s.(tail := v)
    ensures v.Le(s.tail) && Acknowledged(s.book, p).Lt(v) && Room(be, s.book, p, v) ==>
              BookAfter(be, s, BookEvent.Acked(p, v)) == s.(book := s.book[p := v])
    ensures v.Le(s.tail) && v != Zero && v != Acknowledged(s.book, p) && Room(be, s.book, p, v) ==>
              BookAfter(be, s, Reconciled(p, v)) == s.(book := s.book[p := v])
    ensures |FileOf(be, s.book - {p})| <= be.maxBytes ==> BookAfter(be, s, Forgotten(p)).book == s.book - {p}
    ensures s.tail.Lt(v) ==> BookAfter(be, s, BookEvent.Acked(p, v)) == s && BookAfter(be, s, Reconciled(p, v)) == s
  {
    hide ValidPeer, FileOf, AcknowledgeTo, ReconcileTo, ForgetTo;
    CoordinatorExactly(be, s.tail, s.book, p, v);
    AcknowledgeExactly(be, s.book, p, v);
    ReconcileExactly(be, s.book, p, v);
    assert p !in s.book ==> s.book - {p} == s.book;
  }

  function BookRun(be: BookEnv, s: BookState, es: seq<BookEvent>): BookState {
    if es == [] then s else BookAfter(be, BookRun(be, s, es[..|es| - 1]), es[|es| - 1])
  }

  /** No peer is recorded beyond the tail, and the book is within bounds with no zero entry. */
  ghost predicate BookInv(be: BookEnv, s: BookState) {
    BookFault(be, s.book).None? && forall p :: Acknowledged(s.book, p).Le(s.tail)
  }

  lemma BookStep(be: BookEnv, s: BookState, e: BookEvent)
    requires BookInv(be, s)
    ensures BookInv(be, BookAfter(be, s, e))
    ensures forall q :: Acknowledged(BookAfter(be, s, e).book, q).Lt(Acknowledged(s.book, q)) ==>
              (e.Reconciled? || e.Forgotten?) && e.p == q
  {
    hide BookFault, ValidPeer, AcknowledgeTo, ReconcileTo, ForgetTo;
    match e
    case TailMoves(_) =>
    case Acked(p, v) =>
      if CoordinatedAck(be, s.tail, s.book, p, v).Ok? { AcknowledgeMeaning(be, s.book, p, v); }
    case Reconciled(p, v) =>
      if CoordinatedReconcile(be, s.tail, s.book, p, v).Ok? { ReconcileMeaning(be, s.book, p, v); }
    case Forgotten(p) =>
      if ForgetTo(be, s.book, p).Ok? { ForgetMeaning(be, s.book, p); }
  }

  /**
   * Over every run through the coordinator no watermark passes the journal tail and the book stays within
   * bounds with no zero entry; a single step lowers a peer's entry only by reconciling or forgetting that
   * peer.
   */
  lemma {:induction false} WatermarkSafety(be: BookEnv, s: BookState, es: seq<BookEvent>)
    requires BookInv(be, s)
    ensures BookInv(be, BookRun(be, s, es))
    ensures forall q :: (forall i :: 0 <= i < |es| ==> !((es[i].Reconciled? || es[i].Forgotten?) && es[i].p == q)) ==>
              Acknowledged(s.book, q).Le(Acknowledged(BookRun(be, s, es).book, q))
  {
    if es != [] {
      var init := es[..|es| - 1];
      WatermarkSafety(be, s, init);
      BookStep(be, BookRun(be, s, init), es[|es| - 1]);
    }
  }
}
