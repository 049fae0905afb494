/** The operator's replica set, the compaction fence it forms, and compaction status (membership.go, lifecycle_cli.go). */
module Membership {
  import opened Orders
  import opened Bytes
  import opened Versions
  import opened Outcomes
  import opened Records
  import opened Checkpoints
  import opened Merging
  import opened Codec
  import opened Logs
  import opened Repair
  import opened Watermarks

  // ---- the member list ----

  /** Bounds as normalized() leaves them, and the JSON codec of the membership file. */
  datatype MemberEnv = MemberEnv(
    env: Env, maxPeers: nat, maxPeerIDBytes: nat, maxBytes: nat,
    encode: seq<Peer> -> seq<byte>, decode: seq<byte> -> Option<seq<Peer>>)

  predicate ValidMember(me: MemberEnv, p: Peer) {
    0 < |p| <= me.maxPeerIDBytes && me.env.printable(p)
  }

  predicate NoRepeats(ps: seq<Peer>) {
    forall i, j :: 0 <= i < j < |ps| ==> ps[i] != ps[j]
  }

  /** Why normalizeMembers refuses a list, if it does. */
  function MembersFault(me: MemberEnv, ps: seq<Peer>): Option<Error> {
    if |ps| > me.maxPeers then Some(MembershipLimit)
    else if exists i :: 0 <= i < |ps| && !ValidMember(me, ps[i]) then Some(MembershipPeerInvalid)
    else if !NoRepeats(ps) then Some(MembershipDuplicate)
    else None
  }

  /** A member list is usable exactly when it is short enough and its identities are usable and distinct. */
  lemma MembersExactly(me: MemberEnv, ps: seq<Peer>)
    ensures MembersFault(me, ps).None? <==>
            && |ps| <= me.maxPeers && (forall i, j :: 0 <= i < j < |ps| ==> ps[i] != ps[j])
            && forall i :: 0 <= i < |ps| ==> ps[i] != [] && |ps[i]| <= me.maxPeerIDBytes && me.env.printable(ps[i])
    ensures |ps| > me.maxPeers ==> MembersFault(me, ps) == Some(MembershipLimit)
    ensures |ps| <= me.maxPeers && (exists i :: 0 <= i < |ps| && !ValidMember(me, ps[i])) ==>
              MembersFault(me, ps) == Some(MembershipPeerInvalid)
    ensures |ps| <= me.maxPeers && (forall i :: 0 <= i < |ps| ==> ValidMember(me, ps[i])) && !NoRepeats(ps) ==>
              MembersFault(me, ps) == Some(MembershipDuplicate)
  {
  }

  function SortedMembers(ps: seq<Peer>): seq<Peer> {
    if ps == [] then [] else Insert(Less, SortedMembers(ps[..|ps| - 1]), ps[|ps| - 1])
  }

  /** The same identities in ascending order. */
  lemma {:induction false} SortedMembersMeaning(ps: seq<Peer>)
    ensures Ascending(Less, SortedMembers(ps)) && Elements(SortedMembers(ps)) == Elements(ps)
  {
    LessIsStrictOrder();
    if ps != [] {
      var init, p := ps[..|ps| - 1], ps[|ps| - 1];
      SortedMembersMeaning(init);
      assert ps == init + [p];
      ElementsAppend(init, [p]);
      forall y | y in SortedMembers(init) ensures y == p || Less(p, y) || Less(y, p) {
        LessTotal(p, y);
      }
      InsertAscending(Less, SortedMembers(init), p);
    }
  }

  /** A list already in order is left alone. */
  lemma AlreadySorted(ps: seq<Peer>)
    requires Ascending(Less, ps)
    ensures SortedMembers(ps) == ps
  {
    LessIsStrictOrder();
    SortedMembersMeaning(ps);
    AscendingUnique(Less, SortedMembers(ps), ps);
  }

  /** normalizeMembers: the identities in ascending order, each once, or the reason they are refused. */
  method NormalizeMembers(me: MemberEnv, ps: seq<Peer>) returns (res: Result<seq<Peer>>)
    ensures res == match MembersFault(me, ps)
                   case Some(e) => Err(e)
                   case None => Ok(SortedMembers(ps))
  {
    if |ps| > me.maxPeers {
      return Err(MembershipLimit);
    }
    for i := 0 to |ps|
      invariant forall k :: 0 <= k < i ==> ValidMember(me, ps[k])
    {
      if !ValidMember(me, ps[i]) {
        return Err(MembershipPeerInvalid);
      }
    }
    res := SortMembers(ps);
  }

  method SortMembers(ps: seq<Peer>) returns (res: Result<seq<Peer>>)
    ensures res == if NoRepeats(ps) then Ok(SortedMembers(ps)) else Err(MembershipDuplicate)
  {
    var out: seq<Peer> := [];
    for i := 0 to |ps|
      invariant out == SortedMembers(ps[..i]) && NoRepeats(ps[..i])
    {
      assert ps[..i + 1] == ps[..i] + [ps[i]];
      SortedMembersMeaning(ps[..i]);
      assert ps[i] in out <==> ps[i] in Elements(ps[..i]);
      if ps[i] in out {
        return Err(MembershipDuplicate);
      }
      out := Insert(Less, out, ps[i]);
    }
    assert ps[..|ps|] == ps;
    res := Ok(out);
  }

  // ---- the membership file ----

  function MemberFile(me: MemberEnv, ps: seq<Peer>): seq<byte> {
    Envelope(me.env, me.encode(ps))
  }

  ghost predicate SoundMembers(me: MemberEnv) {
    forall ps :: MembersFault(me, ps).None? ==> 0 < |me.encode(ps)| < 0x1_0000_0000 && me.decode(me.encode(ps)) == Some(ps)
  }

  /** OpenMembershipBook: no file is told apart from a file that lists nobody. */
  function OpenMembers(me: MemberEnv, file: Option<seq<byte>>): Result<Option<seq<Peer>>> {
    match file
    case None => Ok(None)
    case Some(data) =>
      if data == [] then Err(MembershipCorrupt)
      else if |data| > me.maxBytes then Err(MembershipLimit)
      else match OpenEnvelope(me.env, data, me.maxBytes, MembershipCorrupt, MembershipChecksum)
        case Err(e) => Err(e)
        case Ok(payload) =>
          match me.decode(payload)
          case None => Err(MembershipCorrupt)
          case Some(ps) => if MembersFault(me, ps).Some? then Err(MembershipCorrupt) else Ok(Some(SortedMembers(ps)))
  }

  /** A membership file opens to a list exactly when it is the envelope, within the bound, of a usable list that sorts to it. */
  lemma OpenMembersExactly(me: MemberEnv, data: seq<byte>, sorted: seq<Peer>)
    ensures OpenMembers(me, None) == Ok(None) && OpenMembers(me, Some(data)) != Ok(None)
    ensures OpenMembers(me, Some(data)) == Ok(Some(sorted)) <==>
            && |data| <= me.maxBytes
            && exists payload ::
                 && 0 < |payload| < 0x1_0000_0000 && data == Envelope(me.env, payload)
                 && me.decode(payload).Some? && MembersFault(me, me.decode(payload).value).None?
                 && sorted == SortedMembers(me.decode(payload).value)
    ensures 0 < |data| <= me.maxBytes && BadChecksum(me.env, data, me.maxBytes) ==>
              OpenMembers(me, Some(data)) == Err(MembershipChecksum)
  {
    hide OpenEnvelope, Envelope, MembersFault, SortedMembers, BadChecksum;
    var max := me.maxBytes;
    ChecksumExactly(me.env, data, max, MembershipCorrupt, MembershipChecksum);
    if OpenMembers(me, Some(data)) == Ok(Some(sorted)) {
      var payload := OpenEnvelope(me.env, data, max, MembershipCorrupt, MembershipChecksum).value;
      EnvelopeExactly(me.env, data, max, MembershipCorrupt, MembershipChecksum, payload);
    }
    if payload :| |data| <= max && 0 < |payload| < 0x1_0000_0000 && data == Envelope(me.env, payload)
                  && me.decode(payload).Some? && MembersFault(me, me.decode(payload).value).None?
                  && sorted == SortedMembers(me.decode(payload).value)
    {
      EnvelopeExactly(me.env, data, max, MembershipCorrupt, MembershipChecksum, payload);
    }
  }

  lemma SortedFault(me: MemberEnv, ps: seq<Peer>)
    requires MembersFault(me, ps).None?
    ensures MembersFault(me, SortedMembers(ps)).None?
  {
    var out := SortedMembers(ps);
    LessIsStrictOrder();
    SortedMembersMeaning(ps);
    forall i | 0 <= i < |out| ensures ValidMember(me, out[i]) {
      assert out[i] in Elements(ps);
    }
    SameCount(ps, out);
  }

  lemma {:induction false} SameCount(ps: seq<Peer>, out: seq<Peer>)
    requires NoRepeats(ps) && NoRepeats(out) && Elements(ps) == Elements(out)
    ensures |out| == |ps|
  {
    CountOf(ps);
    CountOf(out);
  }

  lemma {:induction false} CountOf(ps: seq<Peer>)
    requires NoRepeats(ps)
    ensures |Elements(ps)| == |ps|
  {
    if ps != [] {
      var init, p := ps[..|ps| - 1], ps[|ps| - 1];
      CountOf(init);
      assert ps == init + [p];
      ElementsAppend(init, [p]);
      assert p !in Elements(init);
      assert Elements([p]) == {p};
    }
  }

  lemma MembersRoundTrip(me: MemberEnv, ps: seq<Peer>)
    requires SoundMembers(me) && MembersFault(me, ps).None? && |MemberFile(me, SortedMembers(ps))| <= me.maxBytes
    ensures OpenMembers(me, Some(MemberFile(me, SortedMembers(ps)))) == Ok(Some(SortedMembers(ps)))
  {
    hide MembersFault;
    SortedFault(me, ps);
    SortedMembersMeaning(ps);
    AlreadySorted(SortedMembers(ps));
    EnvelopeRoundTrip(me.env, me.encode(SortedMembers(ps)), me.maxBytes, MembershipCorrupt, MembershipChecksum);
  }

  // ---- progress and the fence ----

  datatype Progress = Progress(configured: bool, members: nat, acknowledged: nat, minimum: Version, target: Version)

  function Behind(book: Book, members: seq<Peer>, target: Version): nat {
    if members == [] then 0
    else Behind(book, members[..|members| - 1], target) +
         (if Acknowledged(book, members[|members| - 1]).Lt(target) then 1 else 0)
  }

  /** It is the number of members whose entry is below the target. */
  lemma {:induction false} BehindCounts(book: Book, members: seq<Peer>, target: Version)
    ensures Behind(book, members, target) == |set i | 0 <= i < |members| && Acknowledged(book, members[i]).Lt(target)|
  {
    var behind := set i | 0 <= i < |members| && Acknowledged(book, members[i]).Lt(target);
    if members == [] {
      assert behind == {};
    } else {
      var init, n := members[..|members| - 1], |members| - 1;
      BehindCounts(book, init, target);
      var before := set i | 0 <= i < |init| && Acknowledged(book, init[i]).Lt(target);
      assert behind == before + (if Acknowledged(book, members[n]).Lt(target) then {n} else {});
    }
  }

  lemma {:induction false} NoneBehind(book: Book, members: seq<Peer>, target: Version)
    ensures Behind(book, members, target) <= |members|
    ensures Behind(book, members, target) == 0 <==>
            forall i :: 0 <= i < |members| ==> target.Le(Acknowledged(book, members[i]))
  {
    if members != [] {
      NoneBehind(book, members[..|members| - 1], target);
      assert members == members[..|members| - 1] + [members[|members| - 1]];
    }
  }

  function ReplaceFault(me: MemberEnv, ps: seq<Peer>, w: Write): Option<Error> {
    if MembersFault(me, ps).Some? then MembersFault(me, ps)
    else if |MemberFile(me, SortedMembers(ps))| > me.maxBytes then Some(MembershipLimit)
    else if !w.Landed? then Some(IOFailure)
    else None
  }

  lemma DistinctMembers(me: MemberEnv, ps: seq<Peer>)
    ensures MembersFault(me, ps).None? ==> NoRepeats(ps)
  {
  }

  class MembershipBook {
    const me: MemberEnv
    var configured: bool
    var members: seq<Peer>
    var file: Option<seq<byte>>

    ghost predicate Valid()
      reads this
    {
      SoundMembers(me) && (!configured ==> members == []) && OpenMembers(me, file).Ok?
    }

    /** Memory is what the file reopens to. */
    ghost predicate Synced()
      reads this
    {
      OpenMembers(me, file) == Ok(if configured then Some(members) else None)
    }

    constructor (me: MemberEnv, file: Option<seq<byte>>)
      requires SoundMembers(me) && OpenMembers(me, file).Ok?
      ensures Valid() && Synced() && this.me == me && this.file == file
    {
      this.me, this.file := me, file;
      var found := OpenMembers(me, file).value;
      configured := found.Some?;
      members := if found.Some? then found.value else [];
    }

    /** A write that is reported as failed may have replaced the file. */
    method Replace(ps: seq<Peer>, w: Write) returns (err: Option<Error>)
      requires Valid()
      modifies this
      ensures Valid()
      ensures err == ReplaceFault(me, ps, w)
      ensures file == if ReplaceFault(me, ps, Landed).None? && !w.Lost? then Some(MemberFile(me, SortedMembers(ps))) else old(file)
      ensures file != old(file) ==> OpenMembers(me, file) == Ok(Some(SortedMembers(ps)))
      ensures err.None? ==>
                && Synced() && configured && members == SortedMembers(ps)
                && Ascending(Less, members) && Elements(members) == Elements(ps) && NoRepeats(ps)
      ensures err.Some? ==> configured == old(configured) && members == old(members)
    {
      hide MembersFault, NoRepeats, SortedMembers;
      var normalized := NormalizeMembers(me, ps);
      if normalized.Err? {
        return Some(normalized.error);
      }
      if |MemberFile(me, normalized.value)| > me.maxBytes {
        return Some(MembershipLimit);
      }
      if w.Lost? {
        return Some(IOFailure);
      }
      MembersRoundTrip(me, ps);
      SortedMembersMeaning(ps);
      DistinctMembers(me, ps);
      file := Some(MemberFile(me, normalized.value));
      if w.LandedUnsynced? {
        return Some(IOFailure);
      }
      members, configured := normalized.value, true;
      err := None;
    }

    /** Progress: how many members have acknowledged the target, and the least acknowledgement. */
    method Summarize(book: Book, target: Version) returns (p: Progress)
      ensures p.configured == configured && p.members == |members| && p.target == target
      ensures !target.IsZero() ==> p.acknowledged + Behind(book, members, target) == |members|
      ensures target.IsZero() ==> p.acknowledged == 0
      ensures members == [] ==> p.minimum == Zero
      ensures members != [] ==> exists i :: 0 <= i < |members| && p.minimum == Acknowledged(book, members[i])
      ensures forall i :: 0 <= i < |members| ==> p.minimum.Le(Acknowledged(book, members[i]))
    {
      var minimum, acknowledged := Zero, 0;
      for i := 0 to |members|
        invariant !target.IsZero() ==> acknowledged + Behind(book, members[..i], target) == i
        invariant target.IsZero() ==> acknowledged == 0
        invariant i == 0 ==> minimum == Zero
        invariant i > 0 ==> exists k :: 0 <= k < i && minimum == Acknowledged(book, members[k])
        invariant forall k :: 0 <= k < i ==> minimum.Le(Acknowledged(book, members[k]))
      {
        assert members[..i + 1][..i] == members[..i];
        var version := Acknowledged(book, members[i]);
        if i == 0 || version.Lt(minimum) {
          minimum := version;
        }
        if !target.IsZero() && target.Le(version) {
          acknowledged := acknowledged + 1;
        }
      }
      assert members[..|members|] == members;
      p := Progress(configured, |members|, acknowledged, minimum, target);
    }

    /** WatermarksAt: the evidence Compact needs, or the reason there is none. */
    method WatermarksAt(book: Book, target: Version) returns (res: Result<seq<Version>>)
      ensures res == FenceAt(configured, members, book, target)
      ensures res.Ok? <==> target != Zero && configured && forall i :: 0 <= i < |members| ==> target.Le(Acknowledged(book, members[i]))
      ensures res.Ok? ==> |res.value| == |members| && forall i :: 0 <= i < |members| ==> res.value[i] == Acknowledged(book, members[i])
      ensures target == Zero ==> res == Err(MembershipWatermarkInvalid)
      ensures target != Zero && !configured ==> res == Err(MembershipNotConfigured)
      ensures target != Zero && configured && (exists i :: 0 <= i < |members| && Acknowledged(book, members[i]).Lt(target)) ==>
                res == Err(MembershipBehind)
    {
      NoneBehind(book, members, target);
      if target.IsZero() {
        return Err(MembershipWatermarkInvalid);
      }
      if !configured {
        return Err(MembershipNotConfigured);
      }
      var versions: seq<Version> := [];
      for i := 0 to |members|
        invariant versions == Evidence(book, members[..i]) && Behind(book, members[..i], target) == 0
      {
        assert members[..i + 1][..i] == members[..i];
        var version := Acknowledged(book, members[i]);
        if version.Lt(target) {
          return Err(MembershipBehind);
        }
        versions := versions + [version];
      }
      assert members[..|members|] == members;
      res := Ok(versions);
    }
  }

  function Evidence(book: Book, members: seq<Peer>): seq<Version> {
    seq(|members|, i requires 0 <= i < |members| => Acknowledged(book, members[i]))
  }

  function FenceAt(configured: bool, members: seq<Peer>, book: Book, target: Version): Result<seq<Version>> {
    if target.IsZero() then Err(MembershipWatermarkInvalid)
    else if !configured then Err(MembershipNotConfigured)
    else if Behind(book, members, target) > 0 then Err(MembershipBehind)
    else Ok(Evidence(book, members))
  }

  // ---- compaction status ----

  datatype Blocked = Unblocked | MembershipMissing | NoProgress | MemberBehind

  /** compactionStatus, for a runtime whose parts are all present. */
  function CompactionStatus(p: Progress, floor: Version): Blocked {
    if !p.configured then MembershipMissing
    else if p.target.Le(floor) then NoProgress
    else if p.members != p.acknowledged then MemberBehind
    else Unblocked
  }

  /** The progress Summarize reports. */
  ghost predicate IsProgress(p: Progress, configured: bool, members: seq<Peer>, book: Book, target: Version) {
    && p.configured == configured && p.members == |members| && p.target == target
    && (if target.IsZero() then p.acknowledged == 0 else p.acknowledged + Behind(book, members, target) == |members|)
  }

  /**
   * Status is unblocked exactly when compact would pass its own checks: the tail is above the floor and the
   * fence accepts it. Each reason names the check that fails.
   */
  lemma StatusAgreesWithFence(p: Progress, configured: bool, members: seq<Peer>, book: Book, floor: Version, tail: Version)
    requires IsProgress(p, configured, members, book, tail)
    ensures CompactionStatus(p, floor).Unblocked? <==> floor.Lt(tail) && FenceAt(configured, members, book, tail).Ok?
    ensures CompactionStatus(p, floor).MemberBehind? <==>
            floor.Lt(tail) && FenceAt(configured, members, book, tail) == Err(MembershipBehind)
    ensures CompactionStatus(p, floor).MembershipMissing? <==> !configured
  {
    NoneBehind(book, members, tail);
  }

  // ---- the fence over runs ----

  /** A source: its journal and checkpoint, the acknowledgements it has, and the members it must wait for. */
  datatype Fence = Fence(log: Log, checkpoint: Option<Checkpoint>, book: Book, members: seq<Peer>)

  datatype FenceStep =
    | FenceAppend(r: Record)
    | FenceAck(p: Peer, v: Version)
    | FenceCompact(records: seq<Record>)
    | FenceReconcile(p: Peer, v: Version)
    | FenceForget(p: Peer)
    | FenceReplace(ps: seq<Peer>)

  ghost function FenceAfter(env: Env, be: BookEnv, s: Fence, step: FenceStep): Fence {
    match step
    case FenceAppend(r) =>
      var res := AppendTo(env, s.log, r);
      if res.Ok? then s.(log := res.value) else s
    case FenceAck(p, v) =>
      var res := CoordinatedAck(be, s.log.Last(), s.book, p, v);
      if res.Ok? then s.(book := res.value) else s
    case FenceCompact(records) =>
      var evidence := FenceAt(true, s.members, s.book, s.log.Last());
      if evidence.Err? then s
      else
        var res := CompactTo(env, s.log, CompactionRequest(s.log.Last(), records, s.checkpoint, evidence.value));
        if res.Ok? then s.(log := res.value.1, checkpoint := Some(res.value.0)) else s
    case FenceReconcile(p, v) =>
      if Greets(be, s, p, v) then s.(book := ReconcileTo(be, s.book, p, v).value) else s
    case FenceForget(p) =>
      if ForgetTo(be, s.book, p).Ok? then s.(book := ForgetTo(be, s.book, p).value) else s
    case FenceReplace(ps) => s.(members := ps)
  }

  /** A session's greeting is taken: the source has a journal and the coordinator accepts the report. */
  predicate Greets(be: BookEnv, s: Fence, p: Peer, v: Version) {
    !s.log.Last().IsZero() && CoordinatedReconcile(be, s.log.Last(), s.book, p, v).Ok?
  }

  /**
   * What a caller can check before a step: a member's greeting is at or above the floor, a member is forgotten
   * only before the first compaction, and new members have reached the floor.
   */
  ghost predicate Keeps(be: BookEnv, s: Fence, step: FenceStep) {
    match step
    case FenceReconcile(p, v) => p in s.members && Greets(be, s, p, v) ==> s.log.floor.Le(v)
    case FenceForget(p) => p in s.members && ForgetTo(be, s.book, p).Ok? ==> s.log.floor.IsZero()
    case FenceReplace(ps) => forall i :: 0 <= i < |ps| ==> s.log.floor.Le(Acknowledged(s.book, ps[i]))
    case _ => true
  }

  ghost function FenceRun(env: Env, be: BookEnv, s: Fence, steps: seq<FenceStep>): Fence {
    if steps == [] then s else FenceAfter(env, be, FenceRun(env, be, s, steps[..|steps| - 1]), steps[|steps| - 1])
  }

  /** Every member has acknowledged the journal floor. */
  ghost predicate Fenced(be: BookEnv, s: Fence) {
    BookFault(be, s.book).None? && forall i :: 0 <= i < |s.members| ==> s.log.floor.Le(Acknowledged(s.book, s.members[i]))
  }

  lemma FencedBook(be: BookEnv, s: Fence, book: Book, p: Peer, v: Version)
    requires Fenced(be, s) && BookFault(be, book).None? && OnlyMoves(s.book, book, p, v)
    ensures Fenced(be, s.(book := book)) <==> (p in s.members ==> s.log.floor.Le(v))
  {
    hide BookFault;
  }

  /** Appends, acknowledgements and compactions keep the fence; the other steps keep it exactly under Keeps. */
  lemma FenceStepExactly(env: Env, be: BookEnv, s: Fence, step: FenceStep)
    requires Fenced(be, s)
    ensures Fenced(be, FenceAfter(env, be, s, step)) <==> Keeps(be, s, step)
  {
    hide AcknowledgeTo, ReconcileTo, ForgetTo, ValidPeer, Normalize, CompactionBase, CheckpointBytes, BookFault;
    match step
    case FenceAppend(_) =>
    case FenceAck(p, v) =>
      if CoordinatedAck(be, s.log.Last(), s.book, p, v).Ok? {
        AcknowledgeMeaning(be, s.book, p, v);
      }
    case FenceCompact(records) =>
      NoneBehind(s.book, s.members, s.log.Last());
    case FenceReconcile(p, v) =>
      if Greets(be, s, p, v) {
        ReconcileMeaning(be, s.book, p, v);
        FencedBook(be, s, ReconcileTo(be, s.book, p, v).value, p, v);
      }
    case FenceForget(p) =>
      if ForgetTo(be, s.book, p).Ok? {
        ForgetMeaning(be, s.book, p);
        FencedBook(be, s, ForgetTo(be, s.book, p).value, p, Zero);
      }
    case FenceReplace(_) =>
  }

  /** What the keeping steps do: an append, an acknowledgement and an accepted compaction of the whole journal take effect. */
  lemma FenceEffects(env: Env, be: BookEnv, s: Fence, r: Record, p: Peer, v: Version, records: seq<Record>)
    ensures AppendTo(env, s.log, r).Ok? ==> FenceAfter(env, be, s, FenceAppend(r)).log.records == s.log.records + [r]
    ensures ValidPeer(be, p) && v.Le(s.log.Last()) && Acknowledged(s.book, p).Lt(v) && Room(be, s.book, p, v) &&
            (p in s.book ==> s.book[p] != Zero) ==>
              FenceAfter(env, be, s, FenceAck(p, v)) == s.(book := s.book[p := v])
    ensures s.log.Last() != Zero && (forall i :: 0 <= i < |s.members| ==> s.log.Last().Le(Acknowledged(s.book, s.members[i]))) ==>
              var q := CompactionRequest(s.log.Last(), records, s.checkpoint, Evidence(s.book, s.members));
              CompactTo(env, s.log, q).Ok? ==>
                var t := FenceAfter(env, be, s, FenceCompact(records));
                t.log == CompactTo(env, s.log, q).value.1 && t.log.floor == s.log.Last()
  {
    hide ValidPeer, AcknowledgeTo, Normalize, CompactionBase, CheckpointBytes, FileOf;
    CoordinatorExactly(be, s.log.Last(), s.book, p, v);
    if p in s.book ==> s.book[p] != Zero {
      AcknowledgeExactly(be, s.book, p, v);
    }
    NoneBehind(s.book, s.members, s.log.Last());
  }

  /** Every state of the run is fenced. */
  ghost predicate AlwaysFenced(env: Env, be: BookEnv, s: Fence, steps: seq<FenceStep>) {
    Fenced(be, FenceRun(env, be, s, steps)) && (steps == [] || AlwaysFenced(env, be, s, steps[..|steps| - 1]))
  }

  /** Every step of the run meets its condition in the state it is taken in. */
  ghost predicate AlwaysKept(env: Env, be: BookEnv, s: Fence, steps: seq<FenceStep>) {
    steps == [] ||
    (AlwaysKept(env, be, s, steps[..|steps| - 1]) && Keeps(be, FenceRun(env, be, s, steps[..|steps| - 1]), steps[|steps| - 1]))
  }

  /**
   * Over a run with appends, acknowledgements, compactions, greetings, removals and membership changes the
   * fence holds in every state exactly when every step meets its condition.
   */
  lemma {:induction false} FenceHolds(env: Env, be: BookEnv, s: Fence, steps: seq<FenceStep>)
    requires Fenced(be, s)
    ensures AlwaysFenced(env, be, s, steps) <==> AlwaysKept(env, be, s, steps)
  {
    hide Fenced, Keeps, FenceAfter;
    if steps != [] {
      var before := FenceRun(env, be, s, steps[..|steps| - 1]);
      FenceHolds(env, be, s, steps[..|steps| - 1]);
      if Fenced(be, before) {
        FenceStepExactly(env, be, before, steps[|steps| - 1]);
      }
    }
  }

  /** A source that has never compacted is fenced whatever its members are. */
  lemma FenceStarts(be: BookEnv, s: Fence)
    requires BookFault(be, s.book).None? && s.log.floor.IsZero()
    ensures Fenced(be, s)
  {
  }

  /** Planning for a fenced member never falls back to a snapshot, with or without one at hand. */
  lemma FencedMemberGetsJournal(be: BookEnv, re: RepairEnv, s: Fence, i: nat, snapshot: Option<Checkpoint>)
    requires Fenced(be, s) && i < |s.members| && Increasing(s.log.floor, s.log.records)
    ensures var plan := PlanRepair(re, s.log, Acknowledged(s.book, s.members[i]), snapshot);
            plan.Ok? ==>
              && plan.value.JournalPlan? && plan.value.batch.from == Acknowledged(s.book, s.members[i])
              && (plan.value.batch.records == [] <==> s.log.Last().Le(plan.value.batch.from))
  {
    hide BookFault;
    var from := Acknowledged(s.book, s.members[i]);
    if SelectBatch(EncoderOf(re), s.log, from).Ok? {
      SelectedBatch(EncoderOf(re), s.log, from);
      NothingRemains(s.log, from);
    }
  }

  lemma NothingRemains(log: Log, from: Version)
    requires Increasing(log.floor, log.records) && log.floor.Le(from)
    ensures Remaining(log, from) == [] <==> log.Last().Le(from)
  {
    CutMeaning(log.records, from);
  }

  /**
   * Reconciling a member to the version it reports keeps the fence exactly when that version is at or above
   * the floor; below it the member's next plan is a snapshot.
   */
  lemma ReconcileFence(be: BookEnv, re: RepairEnv, s: Fence, i: nat, v: Version, snapshot: Checkpoint)
    requires Fenced(be, s) && i < |s.members| && ReconcileTo(be, s.book, s.members[i], v).Ok?
    ensures var s' := s.(book := ReconcileTo(be, s.book, s.members[i], v).value);
            && (Fenced(be, s') <==> s.log.floor.Le(v))
            && var plan := PlanRepair(re, s.log, Acknowledged(s'.book, s.members[i]), Some(snapshot));
               plan.Ok? ==> (plan.value.SnapshotPlan? <==> v.Lt(s.log.floor))
  {
    hide BookFault, ReconcileTo;
    ReconcileMeaning(be, s.book, s.members[i], v);
    FencedBook(be, s, ReconcileTo(be, s.book, s.members[i], v).value, s.members[i], v);
  }

  /** Forgetting a member keeps the fence exactly before the first compaction. */
  lemma ForgetFence(be: BookEnv, s: Fence, i: nat)
    requires Fenced(be, s) && i < |s.members| && ForgetTo(be, s.book, s.members[i]).Ok?
    ensures Fenced(be, s.(book := ForgetTo(be, s.book, s.members[i]).value)) <==> s.log.floor.IsZero()
  {
    hide BookFault, ForgetTo;
    ForgetMeaning(be, s.book, s.members[i]);
    FencedBook(be, s, ForgetTo(be, s.book, s.members[i]).value, s.members[i], Zero);
  }
}
