/** The journal file format: header, checksummed envelopes, and the parser (journal.go). */
module Codec {
  import opened Bytes
  import opened Versions
  import opened Outcomes
  import opened Records
  import opened Checkpoints
  import opened Merging

  const HeaderBytes := 28

  /** What the model assumes of the library functions, and of normalized journal options. */
  ghost predicate Sound(env: Env) {
    && 0 < env.limits.maxNamespaceBytes && 0 < env.limits.maxLogicalKeyBytes
    && 0 < env.limits.maxAuthorityIDBytes && 0 < env.limits.maxRecordBytes < 0x1_0000_0000
    && HeaderBytes <= env.maxJournalBytes && 0 < env.maxJournalEntries
    && (forall r :: 0 < |env.encode(r)|)
    && (forall r :: Valid(env, r) ==> env.decode(env.encode(r)) == Some(r))
    && (forall c :: 0 < |env.encodeCheckpoint(c)|)
    && (forall c :: NormalForm(env, c) ==> env.decodeCheckpoint(env.encodeCheckpoint(c)) == Some(c))
    && (forall d :: |env.digest(d)| == 32)
  }

  // ---- header ----

  /** Magic "SHLJ", format 1, three zero bytes, floor epoch and sequence. */
  function HeaderBody(floor: Version): (h: seq<byte>)
    ensures |h| == 24
  {
    [83, 72, 76, 74, 1, 0, 0, 0] + PutU64(floor.epoch) + PutU64(floor.sequence)
  }

  function EncodeHeader(env: Env, floor: Version): (h: seq<byte>)
    ensures |h| == HeaderBytes
  {
    HeaderBody(floor) + PutU32(env.checksum(HeaderBody(floor)))
  }

  function DecodeHeader(env: Env, h: seq<byte>): Result<Version> {
    if |h| != HeaderBytes || h[..4] != [83, 72, 76, 74] || h[4] != 1 then Err(JournalCorrupt)
    else if env.checksum(h[..24]) != U32(h[24..28]) then Err(JournalChecksum)
    else Ok(Version(U64(h[8..16]), U64(h[16..24])))
  }

  lemma HeaderRoundTrip(env: Env, floor: Version)
    ensures DecodeHeader(env, EncodeHeader(env, floor)) == Ok(floor)
  {
    var h, b := EncodeHeader(env, floor), HeaderBody(floor);
    assert h[..24] == b && h[24..28] == PutU32(env.checksum(b));
    assert h[..4] == b[..4] == [83, 72, 76, 74];
    assert h[8..16] == b[8..16] == PutU64(floor.epoch);
    assert h[16..24] == b[16..24] == PutU64(floor.sequence);
    U32RoundTrip(env.checksum(b));
    U64RoundTrip(floor.epoch);
    U64RoundTrip(floor.sequence);
  }

  /** The bytes of a header, field by field. */
  ghost predicate IsHeader(env: Env, h: seq<byte>, floor: Version) {
    && |h| == HeaderBytes && h[..4] == [83, 72, 76, 74] && h[4] == 1
    && h[8..16] == PutU64(floor.epoch) && h[16..24] == PutU64(floor.sequence)
    && h[24..28] == PutU32(env.checksum(h[..24]))
  }

  /** A header is accepted exactly when magic, format and stored checksum are right; the error tells which is not. */
  lemma HeaderExactly(env: Env, h: seq<byte>, floor: Version)
    ensures DecodeHeader(env, h) == Ok(floor) <==> IsHeader(env, h, floor)
    ensures DecodeHeader(env, h) == Err(JournalChecksum) <==>
            |h| == HeaderBytes && h[..4] == [83, 72, 76, 74] && h[4] == 1 && h[24..28] != PutU32(env.checksum(h[..24]))
    ensures DecodeHeader(env, h) == Err(JournalCorrupt) <==> !(|h| == HeaderBytes && h[..4] == [83, 72, 76, 74] && h[4] == 1)
    ensures IsHeader(env, EncodeHeader(env, floor), floor)
  {
    hide PutU32, U32, PutU64, U64;
    HeaderRoundTrip(env, floor);
    U64RoundTrip(floor.epoch);
    U64RoundTrip(floor.sequence);
    if |h| == HeaderBytes {
      U32RoundTrip(env.checksum(h[..24]));
      U32Bytes(h[24..28]);
      U64Bytes(h[8..16]);
      U64Bytes(h[16..24]);
    }
    var e, b := EncodeHeader(env, floor), HeaderBody(floor);
    assert e[..24] == b && e[24..28] == PutU32(env.checksum(b));
    assert e[..4] == b[..4] && e[8..16] == b[8..16] && e[16..24] == b[16..24];
  }

  // ---- envelopes ----

  /** Length, payload, checksum; the length conversion is the source's uint32(len(payload)). */
  function Envelope(env: Env, payload: seq<byte>): (e: seq<byte>)
    ensures |e| == |payload| + 8
  {
    PutU32(|payload| % 0x1_0000_0000) + payload + PutU32(env.checksum(payload))
  }

  function EncodeEnvelope(env: Env, payload: seq<byte>): Result<seq<byte>> {
    if payload == [] || |payload| >= 0x1_0000_0000 then Err(RecordTooLarge) else Ok(Envelope(env, payload))
  }

  /** decodeEnvelope at offset zero together with its callers' check that nothing follows. */
  function OpenEnvelope(env: Env, data: seq<byte>, max: int, corrupt: Error, checksum: Error): Result<seq<byte>> {
    if |data| < 4 then Err(corrupt)
    else
      var length := U32(data[..4]);
      if length == 0 || length > max || |data| < length + 8 then Err(corrupt)
      else if env.checksum(data[4..4 + length]) != U32(data[4 + length..length + 8]) then Err(checksum)
      else if |data| != length + 8 then Err(corrupt)
      else Ok(data[4..4 + length])
  }

  lemma EnvelopeFields(env: Env, payload: seq<byte>)
    requires 0 < |payload| < 0x1_0000_0000
    ensures var e, n := Envelope(env, payload), |payload|;
            && U32(e[..4]) == n && e[4..4 + n] == payload && U32(e[4 + n..n + 8]) == env.checksum(payload)
  {
    var e, n := Envelope(env, payload), |payload|;
    assert e[..4] == PutU32(n) && e[4 + n..n + 8] == PutU32(env.checksum(payload));
    U32RoundTrip(n);
    U32RoundTrip(env.checksum(payload));
  }

  lemma EnvelopeRoundTrip(env: Env, payload: seq<byte>, max: int, corrupt: Error, checksum: Error)
    requires 0 < |payload| <= max && |payload| < 0x1_0000_0000
    ensures OpenEnvelope(env, Envelope(env, payload), max, corrupt, checksum) == Ok(payload)
  {
    EnvelopeFields(env, payload);
  }

  /** Bytes open to a payload exactly when they are its envelope. */
  lemma EnvelopeExactly(env: Env, data: seq<byte>, max: int, corrupt: Error, checksum: Error, payload: seq<byte>)
    ensures OpenEnvelope(env, data, max, corrupt, checksum) == Ok(payload) <==>
            0 < |payload| <= max && |payload| < 0x1_0000_0000 && data == Envelope(env, payload)
  {
    hide PutU32, U32;
    var res := OpenEnvelope(env, data, max, corrupt, checksum);
    if res == Ok(payload) {
      var n := |payload|;
      U32Bytes(data[..4]);
      U32Bytes(data[4 + n..n + 8]);
      assert data == data[..4] + data[4..4 + n] + data[4 + n..n + 8];
    } else if 0 < |payload| <= max && |payload| < 0x1_0000_0000 && data == Envelope(env, payload) {
      EnvelopeRoundTrip(env, payload, max, corrupt, checksum);
    }
  }

  /** A whole envelope begins the data, but its stored checksum is not its payload's. */
  predicate BadChecksum(env: Env, data: seq<byte>, max: int) {
    && |data| >= 8
    && var n := U32(data[..4]);
       0 < n <= max && n + 8 <= |data| && data[4 + n..n + 8] != PutU32(env.checksum(data[4..4 + n]))
  }

  /** Refused data is reported as a checksum error exactly then. */
  lemma ChecksumExactly(env: Env, data: seq<byte>, max: int, corrupt: Error, checksum: Error)
    ensures var res := OpenEnvelope(env, data, max, corrupt, checksum);
            if BadChecksum(env, data, max) then res == Err(checksum) else res.Ok? || res == Err(corrupt)
  {
    hide PutU32, U32;
    if |data| >= 8 {
      var n := U32(data[..4]);
      if 0 < n <= max && n + 8 <= |data| {
        StoredNumber(data[4 + n..n + 8], env.checksum(data[4..4 + n]));
      }
    }
  }

  lemma StoredNumber(s: seq<byte>, n: u32)
    requires |s| == 4
    ensures U32(s) == n <==> s == PutU32(n)
  {
    hide PutU32, U32;
    U32Bytes(s);
    U32RoundTrip(n);
  }

  // ---- journal file ----

  function Entry(env: Env, r: Record): seq<byte> {
    Envelope(env, env.encode(r))
  }

  function Entries(env: Env, rs: seq<Record>): seq<byte> {
    if rs == [] then [] else Entries(env, rs[..|rs| - 1]) + Entry(env, rs[|rs| - 1])
  }

  /** A journal's durable content: the floor of its header and the retained records. */
  datatype Log = Log(floor: Version, records: seq<Record>) {
    function Last(): Version {
      LastOf(floor, records)
    }
  }

  ghost predicate WellFormed(env: Env, log: Log) {
    Increasing(log.floor, log.records) && AllValid(env, log.records)
  }

  function JournalBytes(env: Env, log: Log): seq<byte> {
    EncodeHeader(env, log.floor) + Entries(env, log.records)
  }

  /** The offset at which the i-th envelope starts. */
  function Boundary(env: Env, rs: seq<Record>, i: nat): nat
    requires i <= |rs|
  {
    HeaderBytes + |Entries(env, rs[..i])|
  }

  // ---- parser ----

  /** One turn of the parse loop: Ok(None) is a torn tail, otherwise the record and the next offset. */
  function ReadEntry(env: Env, data: seq<byte>, offset: nat, last: Version): (r: Result<Option<(Record, nat)>>)
    requires offset < |data|
    ensures r.Ok? && r.value.Some? ==> offset < r.value.value.1 <= |data|
  {
    var remaining := |data| - offset;
    if remaining < 4 then Ok(None)
    else
      var length := U32(data[offset..offset + 4]);
      if length == 0 || length > env.limits.maxRecordBytes then Err(JournalCorrupt)
      else if remaining < length + 8 then Ok(None)
      else
        var payload := data[offset + 4..offset + 4 + length];
        if env.checksum(payload) != U32(data[offset + 4 + length..offset + length + 8]) then Err(JournalChecksum)
        else match env.decode(payload)
          case None => Err(JournalCorrupt)
          case Some(r) =>
            if !Valid(env, r) then Err(JournalCorrupt)
            else if r.version.Le(last) then Err(JournalVersionOrder)
            else Ok(Some((r, offset + length + 8)))
  }

  datatype Tail = Tail(records: seq<Record>, size: nat, truncated: bool)

  function ParseFrom(env: Env, data: seq<byte>, offset: nat, last: Version): Result<Tail>
    requires offset <= |data|
    decreases |data| - offset
  {
    if offset == |data| then Ok(Tail([], offset, false))
    else match ReadEntry(env, data, offset, last)
      case Err(e) => Err(e)
      case Ok(None) => Ok(Tail([], offset, true))
      case Ok(Some((r, next))) =>
        match ParseFrom(env, data, next, r.version)
        case Err(e) => Err(e)
        case Ok(t) => Ok(Tail([r] + t.records, t.size, t.truncated))
  }

  datatype Parsed = Parsed(log: Log, size: nat, truncated: bool)

  function Parse(env: Env, data: seq<byte>): Result<Parsed> {
    if |data| < HeaderBytes then Err(JournalCorrupt)
    else match DecodeHeader(env, data[..HeaderBytes])
      case Err(e) => Err(e)
      case Ok(floor) =>
        match ParseFrom(env, data, HeaderBytes, floor)
        case Err(e) => Err(e)
        case Ok(t) => Ok(Parsed(Log(floor, t.records), t.size, t.truncated))
  }

  /** parseJournal: the loop over an offset computes Parse. */
  method ParseJournal(env: Env, data: seq<byte>) returns (res: Result<Parsed>)
    ensures res == Parse(env, data)
  {
    if |data| < HeaderBytes {
      return Err(JournalCorrupt);
    }
    var header := DecodeHeader(env, data[..HeaderBytes]);
    if header.Err? {
      return Err(header.error);
    }
    var floor := header.value;
    var records: seq<Record> := [];
    var last, offset := floor, HeaderBytes;
    PrependNil(ParseFrom(env, data, offset, last));
    while offset < |data|
      invariant HeaderBytes <= offset <= |data|
      invariant ParseFrom(env, data, HeaderBytes, floor) == Prepend(records, ParseFrom(env, data, offset, last))
    {
      var step := ReadEntry(env, data, offset, last);
      match step
      case Err(e) =>
        return Err(e);
      case Ok(None) =>
        assert records + [] == records;
        return Ok(Parsed(Log(floor, records), offset, true));
      case Ok(Some((r, next))) =>
        PrependSnoc(records, r, ParseFrom(env, data, next, r.version));
        records, last, offset := records + [r], r.version, next;
    }
    assert records + [] == records;
    res := Ok(Parsed(Log(floor, records), offset, false));
  }

  ghost function Prepend(rs: seq<Record>, t: Result<Tail>): Result<Tail> {
    match t
    case Err(e) => Err(e)
    case Ok(t) => Ok(Tail(rs + t.records, t.size, t.truncated))
  }

  lemma PrependNil(t: Result<Tail>)
    ensures Prepend([], t) == t
  {
    if t.Ok? {
      assert [] + t.value.records == t.value.records;
    }
  }

  lemma PrependSnoc(rs: seq<Record>, r: Record, t: Result<Tail>)
    ensures Prepend(rs, Prepend([r], t)) == Prepend(rs + [r], t)
  {
    if t.Ok? {
      assert rs + ([r] + t.value.records) == rs + [r] + t.value.records;
    }
  }

  // ---- every successful parse ----

  lemma {:induction false} ParseFromSound(env: Env, data: seq<byte>, offset: nat, last: Version)
    requires offset <= |data| && ParseFrom(env, data, offset, last).Ok?
    ensures var t := ParseFrom(env, data, offset, last).value;
            && Increasing(last, t.records) && AllValid(env, t.records)
            && offset <= t.size <= |data| && (t.truncated <==> t.size < |data|)
            && ParseFrom(env, data[..t.size], offset, last) == Ok(Tail(t.records, t.size, false))
    decreases |data| - offset
  {
    if offset < |data| {
      var step := ReadEntry(env, data, offset, last);
      if step.value.Some? {
        var (r, next) := step.value.value;
        ParseFromSound(env, data, next, r.version);
        var t := ParseFrom(env, data, next, r.version).value;
        ReadEntryPrefix(env, data, offset, last, t.size);
      }
    } else {
      assert data[..offset] == data;
    }
  }

  /** An entry read whole is read the same from any longer or shorter file that still holds it. */
  lemma ReadEntryPrefix(env: Env, data: seq<byte>, offset: nat, last: Version, n: nat)
    requires offset < |data| && ReadEntry(env, data, offset, last).Ok?
    requires ReadEntry(env, data, offset, last).value.Some?
    requires ReadEntry(env, data, offset, last).value.value.1 <= n <= |data|
    ensures ReadEntry(env, data[..n], offset, last) == ReadEntry(env, data, offset, last)
  {
    var length := U32(data[offset..offset + 4]);
    PrefixSlice(data, n, offset, offset + 4);
    PrefixSlice(data, n, offset + 4, offset + 4 + length);
    PrefixSlice(data, n, offset + 4 + length, offset + length + 8);
  }

  lemma PrefixSlice<T>(s: seq<T>, n: nat, i: nat, j: nat)
    requires i <= j <= n <= |s|
    ensures s[..n][i..j] == s[i..j]
  {
  }

  /**
   * Whatever the bytes, a journal that parses holds valid records in rising version order above its
   * floor, and truncating it at the reported size leaves a file that parses to the same log, untorn.
   */
  lemma ParseSound(env: Env, data: seq<byte>)
    requires Parse(env, data).Ok?
    ensures var p := Parse(env, data).value;
            && WellFormed(env, p.log) && HeaderBytes <= p.size <= |data| && (p.truncated <==> p.size < |data|)
            && Parse(env, data[..p.size]) == Ok(Parsed(p.log, p.size, false))
  {
    var floor := DecodeHeader(env, data[..HeaderBytes]).value;
    ParseFromSound(env, data, HeaderBytes, floor);
    var p := Parse(env, data).value;
    assert data[..p.size][..HeaderBytes] == data[..HeaderBytes];
  }

  // ---- written journals and torn tails ----

  lemma {:induction false} EntriesPrefix(env: Env, rs: seq<Record>, i: nat)
    requires i <= |rs|
    ensures |Entries(env, rs[..i])| <= |Entries(env, rs)|
    ensures Entries(env, rs)[..|Entries(env, rs[..i])|] == Entries(env, rs[..i])
  {
    if i < |rs| {
      var init := rs[..|rs| - 1];
      assert init[..i] == rs[..i];
      EntriesPrefix(env, init, i);
      assert Entries(env, rs)[..|Entries(env, init)|] == Entries(env, init);
    } else {
      assert rs[..i] == rs;
    }
  }

  /** The i-th envelope lies between its boundaries. */
  lemma EntryAt(env: Env, log: Log, i: nat)
    requires i < |log.records|
    ensures Boundary(env, log.records, i + 1) == Boundary(env, log.records, i) + |Entry(env, log.records[i])|
    ensures Boundary(env, log.records, i + 1) <= |JournalBytes(env, log)|
    ensures JournalBytes(env, log)[Boundary(env, log.records, i)..Boundary(env, log.records, i + 1)]
         == Entry(env, log.records[i])
  {
    var rs := log.records;
    var all, upto, before := Entries(env, rs), Entries(env, rs[..i + 1]), Entries(env, rs[..i]);
    assert rs[..i + 1][..i] == rs[..i];
    assert upto == before + Entry(env, rs[i]);
    EntriesPrefix(env, rs, i + 1);
    var data := JournalBytes(env, log);
    assert data[HeaderBytes..] == all;
    assert data[HeaderBytes + |before|..HeaderBytes + |upto|] == all[|before|..|upto|] == upto[|before|..];
  }

  lemma CutSlice<T>(s: seq<T>, n: nat, at: nat, length: nat, a: nat, b: nat)
    requires a <= b <= length && at + length <= |s| && at + b <= n <= |s|
    ensures s[..n][at + a..at + b] == s[at..at + length][a..b]
  {
    var x, y := s[..n][at + a..at + b], s[at..at + length][a..b];
    forall k | 0 <= k < b - a ensures x[k] == y[k] {
      assert s[at..at + length][a + k] == s[at + (a + k)];
    }
  }

  /** What a cut file shows of the i-th envelope. */
  lemma CutEnvelope(env: Env, log: Log, i: nat, n: nat)
    requires i < |log.records| && n <= |JournalBytes(env, log)|
    ensures var e, at := Entry(env, log.records[i]), Boundary(env, log.records, i);
            var cut := JournalBytes(env, log)[..n];
            && (at + 4 <= n ==> cut[at..at + 4] == e[..4])
            && (at + |e| <= n ==> cut[at + 4..at + |e| - 4] == e[4..|e| - 4])
            && (at + |e| <= n ==> cut[at + |e| - 4..at + |e|] == e[|e| - 4..])
  {
    EntryAt(env, log, i);
    var e, at := Entry(env, log.records[i]), Boundary(env, log.records, i);
    var data := JournalBytes(env, log);
    if at + 4 <= n {
      CutSlice(data, n, at, |e|, 0, 4);
    }
    if at + |e| <= n {
      CutSlice(data, n, at, |e|, 4, |e| - 4);
      CutSlice(data, n, at, |e|, |e| - 4, |e|);
    }
  }

  lemma ReadWritten(env: Env, log: Log, i: nat, n: nat)
    requires Sound(env) && WellFormed(env, log) && i < |log.records|
    requires Boundary(env, log.records, i) < n <= |JournalBytes(env, log)|
    ensures ReadEntry(env, JournalBytes(env, log)[..n], Boundary(env, log.records, i), LastOf(log.floor, log.records[..i]))
         == if Boundary(env, log.records, i + 1) <= n
            then Ok(Some((log.records[i], Boundary(env, log.records, i + 1)))) else Ok(None)
  {
    var r, at := log.records[i], Boundary(env, log.records, i);
    assert Valid(env, r) && env.decode(env.encode(r)) == Some(r);
    EntryAt(env, log, i);
    CutEnvelope(env, log, i, n);
    ReadEnvelope(env, JournalBytes(env, log)[..n], at, LastOf(log.floor, log.records[..i]), r);
  }

  /** Reading a file that shows, from offset on, as much of r's envelope as it has bytes for. */
  lemma ReadEnvelope(env: Env, data: seq<byte>, at: nat, last: Version, r: Record)
    requires Valid(env, r) && env.decode(env.encode(r)) == Some(r) && last.Lt(r.version)
    requires 0 < |env.encode(r)| <= env.limits.maxRecordBytes < 0x1_0000_0000
    requires at < |data|
    requires var e := Entry(env, r);
             && (at + 4 <= |data| ==> data[at..at + 4] == e[..4])
             && (at + |e| <= |data| ==> data[at + 4..at + |e| - 4] == e[4..|e| - 4])
             && (at + |e| <= |data| ==> data[at + |e| - 4..at + |e|] == e[|e| - 4..])
    ensures ReadEntry(env, data, at, last)
         == if at + |Entry(env, r)| <= |data| then Ok(Some((r, at + |Entry(env, r)|))) else Ok(None)
  {
    EnvelopeFields(env, env.encode(r));
  }

  /** The number of envelopes wholly inside the first n bytes. */
  function Whole(env: Env, rs: seq<Record>, n: nat): (k: nat)
    ensures k <= |rs|
  {
    if rs == [] || Boundary(env, rs, |rs|) <= n then |rs| else Whole(env, rs[..|rs| - 1], n)
  }

  lemma {:induction false} WholeMeaning(env: Env, rs: seq<Record>, n: nat)
    requires HeaderBytes <= n
    ensures Boundary(env, rs, Whole(env, rs, n)) <= n
    ensures Whole(env, rs, n) < |rs| ==> n < Boundary(env, rs, Whole(env, rs, n) + 1)
  {
    assert rs[..|rs|] == rs;
    if rs != [] && Boundary(env, rs, |rs|) > n {
      var init := rs[..|rs| - 1];
      WholeMeaning(env, init, n);
      var k := Whole(env, rs, n);
      assert init[..k] == rs[..k];
      if k < |init| {
        assert init[..k + 1] == rs[..k + 1];
      }
    }
  }

  lemma TornTailEnd(env: Env, log: Log, n: nat, k: nat)
    requires Sound(env) && WellFormed(env, log) && n <= |JournalBytes(env, log)|
    requires k <= |log.records| && Boundary(env, log.records, k) <= n
    requires k < |log.records| ==> n < Boundary(env, log.records, k + 1)
    ensures ParseFrom(env, JournalBytes(env, log)[..n], Boundary(env, log.records, k), LastOf(log.floor, log.records[..k]))
         == Ok(Tail([], Boundary(env, log.records, k), n != Boundary(env, log.records, k)))
  {
    var rs := log.records;
    assert rs[..|rs|] == rs;
    assert k == |rs| ==> |JournalBytes(env, log)| == Boundary(env, rs, k);
    if Boundary(env, rs, k) < n {
      ReadWritten(env, log, k, n);
    }
  }

  ghost predicate Reads(env: Env, data: seq<byte>, offset: nat, last: Version, r: Record, next: nat) {
    offset < |data| && ReadEntry(env, data, offset, last) == Ok(Some((r, next)))
  }

  lemma ParseOne(env: Env, data: seq<byte>, offset: nat, last: Version, r: Record, next: nat, t: Tail)
    requires Reads(env, data, offset, last, r, next) && ParseFrom(env, data, next, r.version) == Ok(t)
    ensures ParseFrom(env, data, offset, last) == Ok(Tail([r] + t.records, t.size, t.truncated))
  {
  }

  /** A chain of whole entries at the offsets bs parses to its records. */
  lemma {:induction false} ParseChain(env: Env, data: seq<byte>, from: Version, rs: seq<Record>, bs: seq<nat>, t: Tail, i: nat)
    requires |bs| == |rs| + 1 && i <= |rs| && t.records == []
    requires forall j :: 0 <= j < |bs| ==> bs[j] <= |data|
    requires forall j :: 0 <= j < |rs| ==> Reads(env, data, bs[j], LastOf(from, rs[..j]), rs[j], bs[j + 1])
    requires ParseFrom(env, data, bs[|rs|], LastOf(from, rs)) == Ok(t)
    ensures ParseFrom(env, data, bs[i], LastOf(from, rs[..i])) == Ok(Tail(rs[i..], t.size, t.truncated))
    decreases |rs| - i
  {
    hide ReadEntry, Reads;
    if i < |rs| {
      ParseChain(env, data, from, rs, bs, t, i + 1);
      assert LastOf(from, rs[..i + 1]) == rs[i].version;
      ParseOne(env, data, bs[i], LastOf(from, rs[..i]), rs[i], bs[i + 1], Tail(rs[i + 1..], t.size, t.truncated));
      assert rs[i..] == [rs[i]] + rs[i + 1..];
    } else {
      assert rs[..i] == rs && rs[i..] == [];
    }
  }

  /** When exactly the first k envelopes are whole, the entry loop returns the first k records. */
  lemma TornTailEntries(env: Env, log: Log, n: nat, k: nat)
    requires Sound(env) && WellFormed(env, log) && n <= |JournalBytes(env, log)|
    requires k <= |log.records| && HeaderBytes <= Boundary(env, log.records, k) <= n
    requires k < |log.records| ==> n < Boundary(env, log.records, k + 1)
    ensures ParseFrom(env, JournalBytes(env, log)[..n], HeaderBytes, log.floor)
         == Ok(Tail(log.records[..k], Boundary(env, log.records, k), n != Boundary(env, log.records, k)))
  {
    var rs, data := log.records[..k], JournalBytes(env, log)[..n];
    var bs := seq(k + 1, i requires 0 <= i <= k => Boundary(env, log.records, i));
    forall j | 0 <= j < k
      ensures Reads(env, data, bs[j], LastOf(log.floor, rs[..j]), rs[j], bs[j + 1])
    {
      assert rs[..j] == log.records[..j];
      EntryAt(env, log, j);
      BoundaryMonotone(env, log.records, j + 1, k);
      ReadWritten(env, log, j, n);
    }
    TornTailEnd(env, log, n, k);
    forall j | 0 <= j <= k ensures bs[j] <= n {
      BoundaryMonotone(env, log.records, j, k);
    }
    ParseChain(env, data, log.floor, rs, bs, Tail([], bs[k], n != bs[k]), 0);
    assert log.records[..0] == [] && rs[..0] == [] && rs[0..] == rs;
  }

  lemma BoundaryMonotone(env: Env, rs: seq<Record>, i: nat, j: nat)
    requires i <= j <= |rs|
    ensures Boundary(env, rs, i) <= Boundary(env, rs, j)
  {
    assert rs[..j][..i] == rs[..i];
    EntriesPrefix(env, rs[..j], i);
  }

  lemma CutHeader(env: Env, log: Log, n: nat)
    requires HeaderBytes <= n <= |JournalBytes(env, log)|
    ensures DecodeHeader(env, JournalBytes(env, log)[..n][..HeaderBytes]) == Ok(log.floor)
  {
    assert JournalBytes(env, log)[..n][..HeaderBytes] == EncodeHeader(env, log.floor);
    HeaderRoundTrip(env, log.floor);
  }

  /**
   * Torn tails: any prefix of a written journal that keeps the header parses to its floor and exactly
   * the records whose envelopes it holds whole; the size it reports is that envelope boundary, and it
   * reports truncation exactly when the prefix does not end there.
   */
  lemma TornTail(env: Env, log: Log, n: nat)
    requires Sound(env) && WellFormed(env, log) && HeaderBytes <= n <= |JournalBytes(env, log)|
    ensures var k := Whole(env, log.records, n);
            && Parse(env, JournalBytes(env, log)[..n])
               == Ok(Parsed(Log(log.floor, log.records[..k]), Boundary(env, log.records, k), n != Boundary(env, log.records, k)))
            && Boundary(env, log.records, k) <= n
            && (k < |log.records| ==> n < Boundary(env, log.records, k + 1))
  {
    CutHeader(env, log, n);
    WholeMeaning(env, log.records, n);
    TornTailEntries(env, log, n, Whole(env, log.records, n));
  }

  /** Parsing what was written gives it back. */
  lemma JournalRoundTrip(env: Env, log: Log)
    requires Sound(env) && WellFormed(env, log)
    ensures Parse(env, JournalBytes(env, log)) == Ok(Parsed(log, |JournalBytes(env, log)|, false))
  {
    var data := JournalBytes(env, log);
    assert data[..|data|] == data && log.records[..|log.records|] == log.records;
    TornTail(env, log, |data|);
  }

  // ---- what the bytes of a journal say, for any bytes ----

  /** Between at and next lies an envelope: its length, a payload that decodes to r, and the payload's checksum. */
  ghost predicate HoldsEntry(env: Env, data: seq<byte>, at: nat, r: Record, next: nat) {
    && at + 8 < next <= |data| && next - at - 8 <= env.limits.maxRecordBytes && next - at - 8 < 0x1_0000_0000
    && data[at..at + 4] == PutU32(next - at - 8)
    && env.decode(data[at + 4..next - 4]) == Some(r)
    && data[next - 4..next] == PutU32(env.checksum(data[at + 4..next - 4]))
  }

  /** The bytes from at on begin an envelope that the file does not hold to its end. */
  ghost predicate TornAt(env: Env, data: seq<byte>, at: nat) {
    && at < |data|
    && (at + 4 <= |data| ==>
          var n := U32(data[at..at + 4]); 0 < n <= env.limits.maxRecordBytes && |data| < at + n + 8)
  }

  lemma ReadExactly(env: Env, data: seq<byte>, at: nat, last: Version, r: Record, next: nat)
    requires at < |data|
    ensures Reads(env, data, at, last, r, next) <==> HoldsEntry(env, data, at, r, next) && Valid(env, r) && last.Lt(r.version)
    ensures ReadEntry(env, data, at, last) == Ok(None) <==> TornAt(env, data, at)
  {
    hide PutU32, U32, Validate;
    if at + 4 <= |data| {
      var n := U32(data[at..at + 4]);
      U32Bytes(data[at..at + 4]);
      if at + n + 8 <= |data| {
        U32Bytes(data[at + 4 + n..at + n + 8]);
        U32RoundTrip(env.checksum(data[at + 4..at + 4 + n]));
      }
      if HoldsEntry(env, data, at, r, next) {
        U32RoundTrip(next - at - 8);
      }
    }
  }

  /** The entries of rs follow one another at the offsets bs, the first behind the header. */
  ghost predicate Chain(env: Env, data: seq<byte>, rs: seq<Record>, bs: seq<nat>) {
    && |bs| == |rs| + 1 && bs[0] == HeaderBytes && bs[|rs|] <= |data|
    && forall i :: 0 <= i < |rs| ==> HoldsEntry(env, data, bs[i], rs[i], bs[i + 1])
  }

  lemma {:induction false} ParseFromLayout(env: Env, data: seq<byte>, offset: nat, last: Version) returns (bs: seq<nat>)
    requires offset <= |data| && ParseFrom(env, data, offset, last).Ok?
    ensures var t := ParseFrom(env, data, offset, last).value;
            && |bs| == |t.records| + 1 && bs[0] == offset && bs[|t.records|] == t.size <= |data|
            && (forall i :: 0 <= i < |t.records| ==> HoldsEntry(env, data, bs[i], t.records[i], bs[i + 1]))
            && (if t.truncated then TornAt(env, data, t.size) else t.size == |data|)
    decreases |data| - offset
  {
    hide ReadEntry, HoldsEntry, TornAt;
    bs := [offset];
    if offset < |data| {
      var step := ReadEntry(env, data, offset, last);
      if step.value.Some? {
        var (r, next) := step.value.value;
        ReadExactly(env, data, offset, last, r, next);
        var rest := ParseFromLayout(env, data, next, r.version);
        bs := [offset] + rest;
        var t, u := ParseFrom(env, data, offset, last).value, ParseFrom(env, data, next, r.version).value;
        forall i | 0 <= i < |t.records| ensures HoldsEntry(env, data, bs[i], t.records[i], bs[i + 1]) {
          if i > 0 {
            assert HoldsEntry(env, data, rest[i - 1], u.records[i - 1], rest[i]);
          }
        }
      } else {
        ReadExactly(env, data, offset, last, Record([], [], Other, [], Zero, []), 0);
      }
    }
  }

  /** The layout of a journal file: header, whole entries at bs, then nothing or the beginning of one more. */
  ghost predicate LaidOut(env: Env, data: seq<byte>, p: Parsed, bs: seq<nat>) {
    && |data| >= HeaderBytes && IsHeader(env, data[..HeaderBytes], p.log.floor) && WellFormed(env, p.log)
    && Chain(env, data, p.log.records, bs) && bs[|p.log.records|] == p.size
    && (if p.truncated then TornAt(env, data, p.size) else p.size == |data|)
  }

  /** A whole chain of entries of rising version is read to its end, whatever comes behind it. */
  lemma ChainReads(env: Env, data: seq<byte>, log: Log, bs: seq<nat>, i: nat)
    requires WellFormed(env, log) && Chain(env, data, log.records, bs) && i < |log.records|
    ensures Reads(env, data, bs[i], LastOf(log.floor, log.records[..i]), log.records[i], bs[i + 1])
  {
    hide ReadEntry, Reads;
    assert HoldsEntry(env, data, bs[i], log.records[i], bs[i + 1]);
    ReadExactly(env, data, bs[i], LastOf(log.floor, log.records[..i]), log.records[i], bs[i + 1]);
  }

  lemma {:induction false} ChainBelow(env: Env, data: seq<byte>, rs: seq<Record>, bs: seq<nat>, i: nat)
    requires Chain(env, data, rs, bs) && i <= |rs|
    ensures bs[i] <= |data| && HeaderBytes <= bs[i]
    decreases i
  {
    if i > 0 {
      ChainBelow(env, data, rs, bs, i - 1);
      assert HoldsEntry(env, data, bs[i - 1], rs[i - 1], bs[i]);
    } else if rs != [] {
      assert HoldsEntry(env, data, bs[0], rs[0], bs[1]);
    }
  }

  /**
   * The parse of any bytes, exactly: it succeeds with a floor, records, a size and a truncation mark if and only if the
   * file is laid out that way, every payload behind its length and before its own checksum.
   */
  lemma ParseExactly(env: Env, data: seq<byte>, p: Parsed)
    ensures Parse(env, data) == Ok(p) <==> exists bs :: LaidOut(env, data, p, bs)
  {
    hide LaidOut, DecodeHeader, ParseFrom, IsHeader;
    if Parse(env, data) == Ok(p) {
      HeaderExactly(env, data[..HeaderBytes], p.log.floor);
      var bs := ParseFromLayout(env, data, HeaderBytes, p.log.floor);
      ParseSound(env, data);
      LayoutIs(env, data, p, bs);
    }
    if bs :| LaidOut(env, data, p, bs) {
      LayoutParses(env, data, p, bs);
    }
  }

  lemma LayoutIs(env: Env, data: seq<byte>, p: Parsed, bs: seq<nat>)
    requires |data| >= HeaderBytes && IsHeader(env, data[..HeaderBytes], p.log.floor) && WellFormed(env, p.log)
    requires |bs| == |p.log.records| + 1 && bs[0] == HeaderBytes && bs[|p.log.records|] == p.size <= |data|
    requires forall i :: 0 <= i < |p.log.records| ==> HoldsEntry(env, data, bs[i], p.log.records[i], bs[i + 1])
    requires if p.truncated then TornAt(env, data, p.size) else p.size == |data|
    ensures LaidOut(env, data, p, bs)
  {
  }

  lemma LayoutParses(env: Env, data: seq<byte>, p: Parsed, bs: seq<nat>)
    requires LaidOut(env, data, p, bs)
    ensures Parse(env, data) == Ok(p)
  {
    hide ReadEntry, Reads, IsHeader, DecodeHeader, WellFormed, HoldsEntry, TornAt;
    var rs := p.log.records;
    HeaderExactly(env, data[..HeaderBytes], p.log.floor);
    forall i | 0 <= i < |rs| ensures Reads(env, data, bs[i], LastOf(p.log.floor, rs[..i]), rs[i], bs[i + 1]) {
      ChainReads(env, data, p.log, bs, i);
    }
    forall i | 0 <= i < |bs| ensures bs[i] <= |data| {
      ChainBelow(env, data, rs, bs, i);
    }
    LayoutEnds(env, data, p.size, p.log.Last(), p.truncated);
    ParseChain(env, data, p.log.floor, rs, bs, Tail([], p.size, p.truncated), 0);
    assert rs[..0] == [] && rs[0..] == rs;
  }

  lemma LayoutEnds(env: Env, data: seq<byte>, size: nat, last: Version, truncated: bool)
    requires size <= |data| && if truncated then TornAt(env, data, size) else size == |data|
    ensures ParseFrom(env, data, size, last) == Ok(Tail([], size, truncated))
  {
    hide ReadEntry, TornAt;
    if truncated {
      TornInside(env, data, size);
      ReadExactly(env, data, size, last, Record([], [], Other, [], Zero, []), 0);
    }
  }

  lemma TornInside(env: Env, data: seq<byte>, at: nat)
    requires TornAt(env, data, at)
    ensures at < |data|
  {
  }

  /**
   * The refusals of a parse: behind a chain of whole entries, an impossible length, a payload that is not that of its
   * stored checksum, one that does not decode to a valid record, or one whose version does not rise.
   */
  lemma ParseStopsAt(env: Env, data: seq<byte>, log: Log, bs: seq<nat>)
    requires |data| >= HeaderBytes && IsHeader(env, data[..HeaderBytes], log.floor) && WellFormed(env, log)
    requires Chain(env, data, log.records, bs) && bs[|log.records|] + 4 <= |data|
    ensures var at := bs[|log.records|];
            var n := U32(data[at..at + 4]);
            if n == 0 || n > env.limits.maxRecordBytes then Parse(env, data) == Err(JournalCorrupt)
            else at + n + 8 <= |data| ==>
              var payload, stored := data[at + 4..at + 4 + n], data[at + 4 + n..at + n + 8];
              && (stored != PutU32(env.checksum(payload)) ==> Parse(env, data) == Err(JournalChecksum))
              && (stored == PutU32(env.checksum(payload)) ==>
                    match env.decode(payload)
                    case None => Parse(env, data) == Err(JournalCorrupt)
                    case Some(r) =>
                      && (!Valid(env, r) ==> Parse(env, data) == Err(JournalCorrupt))
                      && (Valid(env, r) && r.version.Le(log.Last()) ==> Parse(env, data) == Err(JournalVersionOrder)))
  {
    hide IsHeader, DecodeHeader, WellFormed, HoldsEntry, PutU32, U32, Validate;
    var at := bs[|log.records|];
    HeaderExactly(env, data[..HeaderBytes], log.floor);
    ChainFails(env, data, log, bs, 0);
    assert log.records[..0] == [];
    var n := U32(data[at..at + 4]);
    if at + n + 8 <= |data| {
      U32Bytes(data[at + 4 + n..at + n + 8]);
      U32RoundTrip(env.checksum(data[at + 4..at + 4 + n]));
    }
  }

  lemma {:induction false} ChainFails(env: Env, data: seq<byte>, log: Log, bs: seq<nat>, i: nat)
    requires WellFormed(env, log) && Chain(env, data, log.records, bs) && i <= |log.records|
    ensures bs[i] <= |data| && bs[|log.records|] <= |data|
    ensures ParseFrom(env, data, bs[|log.records|], log.Last()).Err? ==>
              ParseFrom(env, data, bs[i], LastOf(log.floor, log.records[..i])) ==
              ParseFrom(env, data, bs[|log.records|], log.Last())
    decreases |log.records| - i
  {
    hide ReadEntry, HoldsEntry, WellFormed;
    ChainBelow(env, data, log.records, bs, i);
    ChainBelow(env, data, log.records, bs, |log.records|);
    if i < |log.records| {
      ChainFails(env, data, log, bs, i + 1);
      ChainReads(env, data, log, bs, i);
      assert LastOf(log.floor, log.records[..i + 1]) == log.records[i].version;
    } else {
      assert log.records[..i] == log.records;
    }
  }

  /** The entries of a written journal form a chain, whatever comes behind them. */
  lemma WrittenChain(env: Env, log: Log, rest: seq<byte>)
    requires Sound(env) && WellFormed(env, log)
    ensures var bs := seq(|log.records| + 1, i requires 0 <= i <= |log.records| => Boundary(env, log.records, i));
            Chain(env, JournalBytes(env, log) + rest, log.records, bs)
  {
    hide Sound, WellFormed, Entries, HoldsEntry;
    var bs := seq(|log.records| + 1, i requires 0 <= i <= |log.records| => Boundary(env, log.records, i));
    assert log.records[..0] == [] && log.records[..|log.records|] == log.records;
    NoEntries(env);
    forall i | 0 <= i < |log.records|
      ensures HoldsEntry(env, JournalBytes(env, log) + rest, bs[i], log.records[i], bs[i + 1])
    {
      WrittenEntry(env, log, rest, i);
    }
  }

  lemma NoEntries(env: Env)
    ensures Entries(env, []) == []
  {
  }

  lemma InnerSlice(data: seq<byte>, at: nat, e: seq<byte>, i: nat, j: nat)
    requires at + |e| <= |data| && data[at..at + |e|] == e && i <= j <= |e|
    ensures data[at + i..at + j] == e[i..j]
  {
    forall k | 0 <= k < j - i ensures data[at + i..at + j][k] == e[i..j][k] {
      assert data[at..at + |e|][i + k] == data[at + i + k];
    }
  }

  lemma WrittenEntry(env: Env, log: Log, rest: seq<byte>, i: nat)
    requires Sound(env) && WellFormed(env, log) && i < |log.records|
    ensures HoldsEntry(env, JournalBytes(env, log) + rest, Boundary(env, log.records, i), log.records[i], Boundary(env, log.records, i + 1))
  {
    hide PutU32, U32, Entries, EncodeHeader;
    var r, at, data := log.records[i], Boundary(env, log.records, i), JournalBytes(env, log) + rest;
    var e, payload := Entry(env, r), env.encode(r);
    assert Valid(env, r) && env.decode(payload) == Some(r);
    EntryAt(env, log, i);
    assert data[at..at + |e|] == e;
    InnerSlice(data, at, e, 0, 4);
    InnerSlice(data, at, e, 4, |e| - 4);
    InnerSlice(data, at, e, |e| - 4, |e|);
    assert e[..4] == PutU32(|payload|) && e[4..|e| - 4] == payload && e[|e| - 4..] == PutU32(env.checksum(payload));
  }

  lemma ThreeParts(a: seq<byte>, x: seq<byte>, y: seq<byte>, z: seq<byte>, rest: seq<byte>)
    ensures var data, i, j := a + (x + y + z) + rest, |a| + |x|, |a| + |x| + |y|;
            && data == a + ((x + y + z) + rest) && |data| >= j + |z|
            && data[|a|..i] == x && data[i..j] == y && data[j..j + |z|] == z
  {
  }

  lemma WrittenHeader(env: Env, log: Log, rest: seq<byte>)
    ensures var data := JournalBytes(env, log) + rest;
            |data| >= HeaderBytes && IsHeader(env, data[..HeaderBytes], log.floor)
    ensures Boundary(env, log.records, |log.records|) == |JournalBytes(env, log)|
  {
    hide IsHeader, PutU32, U32, EncodeHeader;
    HeaderExactly(env, EncodeHeader(env, log.floor), log.floor);
    assert (JournalBytes(env, log) + rest)[..HeaderBytes] == EncodeHeader(env, log.floor);
    assert log.records[..|log.records|] == log.records;
  }

  /**
   * A damaged payload is noticed: a written journal in which the payload of one entry is another one, of another
   * checksum, is refused for its checksum, whatever follows.
   */
  lemma DamagedPayload(env: Env, log: Log, r: Record, payload: seq<byte>, rest: seq<byte>)
    requires Sound(env) && WellFormed(env, log) && 0 < |payload| <= env.limits.maxRecordBytes
    requires env.checksum(payload) != env.checksum(env.encode(r))
    ensures var damaged := PutU32(|payload|) + payload + PutU32(env.checksum(env.encode(r)));
            Parse(env, JournalBytes(env, log) + damaged + rest) == Err(JournalChecksum)
  {
    hide PutU32, U32, WellFormed, Chain, Entries, EncodeHeader, JournalBytes;
    var n, stored := |payload|, PutU32(env.checksum(env.encode(r)));
    var damaged := PutU32(n) + payload + stored;
    var data := JournalBytes(env, log) + damaged + rest;
    ThreeParts(JournalBytes(env, log), PutU32(n), payload, stored, rest);
    WrittenChain(env, log, damaged + rest);
    WrittenHeader(env, log, damaged + rest);
    var bs := seq(|log.records| + 1, i requires 0 <= i <= |log.records| => Boundary(env, log.records, i));
    U32RoundTrip(n);
    U32RoundTrip(env.checksum(payload));
    U32RoundTrip(env.checksum(env.encode(r)));
    ParseStopsAt(env, data, log, bs);
  }
}
