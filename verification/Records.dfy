/** Lifecycle records, the last-writer-wins store, and normalized checkpoints (model.go). */
module Records {
  import opened Orders
  import opened Bytes
  import opened Versions
  import opened Outcomes

  /** Other stands for every state string that is neither "present" nor "deleted". */
  datatype State = Present | Deleted | Other

  datatype Record = Record(
    namespace: seq<byte>, logicalKey: seq<byte>, state: State,
    blobKey: seq<byte>, version: Version, authorityID: seq<byte>)

  datatype Key = Key(namespace: seq<byte>, logicalKey: seq<byte>)

  function KeyOf(r: Record): Key {
    Key(r.namespace, r.logicalKey)
  }

  predicate BodyEqual(r: Record, s: Record) {
    r.state == s.state && r.blobKey == s.blobKey && r.authorityID == s.authorityID
  }

  datatype Limits = Limits(
    maxNamespaceBytes: int, maxLogicalKeyBytes: int, maxAuthorityIDBytes: int,
    maxRecordBytes: int, maxCheckpointBytes: int)

  datatype Checkpoint = Checkpoint(watermark: Version, records: seq<Record>)

  /**
   * The library functions the lifecycle code calls, with the limits it was opened with: JSON for
   * records and checkpoints, CRC-32C, SHA-256, and the UTF-8 printability test of identities.
   */
  datatype Env = Env(
    limits: Limits, maxJournalBytes: int, maxJournalEntries: int,
    encode: Record -> seq<byte>, decode: seq<byte> -> Option<Record>,
    encodeCheckpoint: Checkpoint -> seq<byte>, decodeCheckpoint: seq<byte> -> Option<Checkpoint>,
    checksum: seq<byte> -> u32, digest: seq<byte> -> seq<byte>, printable: seq<byte> -> bool)

  /** Record.Validate: the first rule a record breaks, if any. */
  function Validate(env: Env, r: Record): Option<Error> {
    if r.namespace == [] then Some(NamespaceEmpty)
    else if |r.namespace| > env.limits.maxNamespaceBytes then Some(NamespaceTooLarge)
    else if r.logicalKey == [] then Some(LogicalKeyEmpty)
    else if |r.logicalKey| > env.limits.maxLogicalKeyBytes then Some(LogicalKeyTooLarge)
    else if r.authorityID == [] then Some(AuthorityEmpty)
    else if |r.authorityID| > env.limits.maxAuthorityIDBytes then Some(AuthorityTooLarge)
    else if !env.printable(r.authorityID) then Some(AuthorityNotPrintable)
    else if r.version.IsZero() then Some(ZeroVersion)
    else if r.state.Other? then Some(InvalidState)
    else if |r.blobKey| != (if r.state.Present? then 32 else 0) then Some(InvalidBlobKey)
    else if |env.encode(r)| > env.limits.maxRecordBytes then Some(RecordTooLarge)
    else None
  }

  predicate Valid(env: Env, r: Record) {
    Validate(env, r).None?
  }

  /** What a record must satisfy, in the order the rules are looked at, and the error for each. */
  function Rules(env: Env, r: Record): seq<(bool, Error)> {
    [(0 < |r.namespace|, NamespaceEmpty), (|r.namespace| <= env.limits.maxNamespaceBytes, NamespaceTooLarge),
     (0 < |r.logicalKey|, LogicalKeyEmpty), (|r.logicalKey| <= env.limits.maxLogicalKeyBytes, LogicalKeyTooLarge),
     (0 < |r.authorityID|, AuthorityEmpty), (|r.authorityID| <= env.limits.maxAuthorityIDBytes, AuthorityTooLarge),
     (env.printable(r.authorityID), AuthorityNotPrintable), (r.version != Zero, ZeroVersion),
     (r.state.Present? || r.state.Deleted?, InvalidState),
     ((r.state.Present? ==> |r.blobKey| == 32) && (r.state.Deleted? ==> r.blobKey == []), InvalidBlobKey),
     (|env.encode(r)| <= env.limits.maxRecordBytes, RecordTooLarge)]
  }

  /** A record is valid exactly when it keeps all rules; otherwise the error is that of the first one broken. */
  lemma ValidExactly(env: Env, r: Record)
    ensures Valid(env, r) <==>
            && 0 < |r.namespace| <= env.limits.maxNamespaceBytes && 0 < |r.logicalKey| <= env.limits.maxLogicalKeyBytes
            && 0 < |r.authorityID| <= env.limits.maxAuthorityIDBytes && env.printable(r.authorityID) && r.version != Zero
            && ((r.state.Present? && |r.blobKey| == 32) || (r.state.Deleted? && r.blobKey == []))
            && |env.encode(r)| <= env.limits.maxRecordBytes
    ensures var rules := Rules(env, r);
            forall i :: 0 <= i < |rules| && !rules[i].0 && (forall j :: 0 <= j < i ==> rules[j].0) ==>
              Validate(env, r) == Some(rules[i].1)
  {
    var rules := Rules(env, r);
    forall i | 0 <= i < |rules| && !rules[i].0 && (forall j :: 0 <= j < i ==> rules[j].0)
      ensures Validate(env, r) == Some(rules[i].1)
    {
      assert (i > 0 ==> rules[0].0) && (i > 1 ==> rules[1].0) && (i > 2 ==> rules[2].0) && (i > 3 ==> rules[3].0);
      assert (i > 4 ==> rules[4].0) && (i > 5 ==> rules[5].0) && (i > 6 ==> rules[6].0) && (i > 7 ==> rules[7].0);
      assert (i > 8 ==> rules[8].0) && (i > 9 ==> rules[9].0);
    }
  }

  ghost predicate AllValid(env: Env, rs: seq<Record>) {
    forall i :: 0 <= i < |rs| ==> Valid(env, rs[i])
  }

  // ---- classification and merging ----

  datatype ApplyOutcome = Applied | Duplicate | Stale
  datatype ApplyResult = ApplyResult(outcome: ApplyOutcome, version: Version)

  type View = map<Key, Record>

  function Lookup(v: View, k: Key): Option<Record> {
    if k in v then Some(v[k]) else None
  }

  /** classifyRecord */
  function Classify(r: Record, previous: Option<Record>): Result<ApplyResult> {
    if previous.None? || previous.value.version.Lt(r.version) then Ok(ApplyResult(Applied, r.version))
    else if r.version.Lt(previous.value.version) then Ok(ApplyResult(Stale, previous.value.version))
    else if BodyEqual(r, previous.value) then Ok(ApplyResult(Duplicate, previous.value.version))
    else Err(Conflict)
  }

  /** The store after Apply has classified r: only an Applied record changes it. */
  function Merge(v: View, r: Record): View {
    var c := Classify(r, Lookup(v, KeyOf(r)));
    if c.Ok? && c.value.outcome.Applied? then v[KeyOf(r) := r] else v
  }

  function MergeAll(v: View, rs: seq<Record>): View {
    if rs == [] then v else Merge(MergeAll(v, rs[..|rs| - 1]), rs[|rs| - 1])
  }

  ghost predicate Keyed(v: View) {
    forall k :: k in v ==> KeyOf(v[k]) == k
  }

  /** Every record of v is at most w. */
  ghost predicate Bounded(v: View, w: Version) {
    forall k :: k in v ==> v[k].version.Le(w)
  }

  class Store {
    const env: Env
    var records: View

    constructor (env: Env)
      ensures this.env == env && records == map[]
    {
      this.env := env;
      records := map[];
    }

    method Apply(r: Record) returns (res: Result<ApplyResult>)
      modifies this`records
      ensures res == match Validate(env, r)
                     case Some(e) => Err(e)
                     case None => Classify(r, Lookup(old(records), KeyOf(r)))
      ensures records == if Valid(env, r) then Merge(old(records), r) else old(records)
      ensures var k := KeyOf(r);
              && records - {k} == old(records) - {k}
              && (res.Ok? ==> k in records && records[k].version == res.value.version)
              && (res.Ok? && res.value.outcome.Applied? ==>
                    records[k] == r && (k in old(records) ==> old(records)[k].version.Lt(r.version)))
              && (res.Ok? && !res.value.outcome.Applied? ==> records == old(records))
              && (res.Ok? && res.value.outcome.Stale? ==> r.version.Lt(records[k].version))
              && (res.Ok? && res.value.outcome.Duplicate? ==> BodyEqual(r, records[k]) && records[k].version == r.version)
              && (res.Err? ==> records == old(records))
              && (res == Err(Conflict) <==>
                    && Valid(env, r) && k in records && records[k].version == r.version
                    && (records[k].state != r.state || records[k].blobKey != r.blobKey || records[k].authorityID != r.authorityID))
    {
      ValidExactly(env, r);
      var fault := Validate(env, r);
      if fault.Some? {
        return Err(fault.value);
      }
      res := Classify(r, Lookup(records, KeyOf(r)));
      if res.Ok? && res.value.outcome.Applied? {
        records := records[KeyOf(r) := r];
      }
    }

    /** Snapshot: the records in namespace and key order. */
    method Snapshot() returns (out: seq<Record>)
      requires Keyed(records)
      ensures out == SnapshotOf(records)
      ensures forall i, j :: 0 <= i < j < |out| ==>
                || Less(out[i].namespace, out[j].namespace)
                || (out[i].namespace == out[j].namespace && Less(out[i].logicalKey, out[j].logicalKey))
    {
      out := [];
      var rest := records.Keys;
      ghost var done: View := map[];
      while rest != {}
        invariant rest <= records.Keys
        invariant done == map k | k in records && k !in rest :: records[k]
        invariant IsSnapshot(done, out)
      {
        var k :| k in rest;
        SnapshotInsert(done, out, records[k]);
        out := Insert(ByKey, out, records[k]);
        done := done[k := records[k]];
        rest := rest - {k};
      }
      assert done == records;
      SnapshotUnique(records, out);
    }

    method ReplaceSnapshot(rs: seq<Record>) returns (fault: Option<Error>)
      modifies this`records
      ensures AllValid(env, rs) && DistinctKeys(rs) <==> fault.None?
      ensures AllValid(env, rs) && !DistinctKeys(rs) ==> fault == Some(DuplicateLogicalKey)
      ensures records == if fault.None? then ViewOf(rs) else old(records)
    {
      var next: View := map[];
      for i := 0 to |rs|
        invariant AllValid(env, rs[..i]) && DistinctKeys(rs[..i])
        invariant next == ViewOf(rs[..i])
        invariant records == old(records)
      {
        fault := Validate(env, rs[i]);
        if fault.Some? {
          return;
        }
        ViewOfStep(rs, i);
        if KeyOf(rs[i]) in next {
          return Some(DuplicateLogicalKey);
        }
        next := next[KeyOf(rs[i]) := rs[i]];
      }
      assert rs[..|rs|] == rs;
      records := next;
      return None;
    }
  }

  // ---- sorted snapshots ----

  predicate ByKey(r: Record, s: Record) {
    Less(r.namespace, s.namespace) || (r.namespace == s.namespace && Less(r.logicalKey, s.logicalKey))
  }

  lemma ByKeyIsStrictOrder()
    ensures StrictOrder(ByKey)
  {
    LessIsStrictOrder();
  }

  lemma ByKeyTotal(r: Record, s: Record)
    ensures KeyOf(r) == KeyOf(s) || ByKey(r, s) || ByKey(s, r)
  {
    LessTotal(r.namespace, s.namespace);
    LessTotal(r.logicalKey, s.logicalKey);
  }

  ghost predicate DistinctKeys(rs: seq<Record>) {
    forall i, j :: 0 <= i < j < |rs| ==> KeyOf(rs[i]) != KeyOf(rs[j])
  }

  lemma AscendingDistinct(rs: seq<Record>)
    requires Ascending(ByKey, rs)
    ensures DistinctKeys(rs)
  {
    forall i, j | 0 <= i < j < |rs| ensures KeyOf(rs[i]) != KeyOf(rs[j]) {
      assert ByKey(rs[i], rs[j]);
      LessIrreflexive(rs[i].namespace);
      LessIrreflexive(rs[i].logicalKey);
    }
  }

  function ViewOf(rs: seq<Record>): View {
    if rs == [] then map[] else ViewOf(rs[..|rs| - 1])[KeyOf(rs[|rs| - 1]) := rs[|rs| - 1]]
  }

  lemma {:induction false} InViewOf(rs: seq<Record>, k: Key)
    ensures k in ViewOf(rs) <==> exists i :: 0 <= i < |rs| && KeyOf(rs[i]) == k
    ensures k in ViewOf(rs) ==> ViewOf(rs)[k] in rs && KeyOf(ViewOf(rs)[k]) == k
  {
    if rs != [] {
      var init, r := rs[..|rs| - 1], rs[|rs| - 1];
      InViewOf(init, k);
      if KeyOf(r) != k && k in ViewOf(init) {
        var i :| 0 <= i < |init| && KeyOf(init[i]) == k;
        assert KeyOf(rs[i]) == k;
      }
    }
  }

  lemma {:induction false} ListedInView(rs: seq<Record>, i: nat)
    requires DistinctKeys(rs) && i < |rs|
    ensures KeyOf(rs[i]) in ViewOf(rs) && ViewOf(rs)[KeyOf(rs[i])] == rs[i]
  {
    if i < |rs| - 1 {
      assert KeyOf(rs[i]) != KeyOf(rs[|rs| - 1]);
      ListedInView(rs[..|rs| - 1], i);
    }
  }

  lemma ViewOfKeys(rs: seq<Record>)
    ensures Keyed(ViewOf(rs))
    ensures forall k :: k in ViewOf(rs) <==> exists i :: 0 <= i < |rs| && KeyOf(rs[i]) == k
    ensures forall k :: k in ViewOf(rs) ==> ViewOf(rs)[k] in rs
    ensures DistinctKeys(rs) ==> forall i :: 0 <= i < |rs| ==> ViewOf(rs)[KeyOf(rs[i])] == rs[i]
  {
    hide ViewOf, DistinctKeys;
    forall k ensures k in ViewOf(rs) <==> exists i :: 0 <= i < |rs| && KeyOf(rs[i]) == k {
      InViewOf(rs, k);
    }
    forall k | k in ViewOf(rs) ensures ViewOf(rs)[k] in rs && KeyOf(ViewOf(rs)[k]) == k {
      InViewOf(rs, k);
    }
    if DistinctKeys(rs) {
      forall i | 0 <= i < |rs| ensures ViewOf(rs)[KeyOf(rs[i])] == rs[i] {
        ListedInView(rs, i);
      }
    }
  }

  lemma OneMoreDistinct(before: seq<Record>, r: Record)
    requires DistinctKeys(before)
    ensures DistinctKeys(before + [r]) <==> !exists i :: 0 <= i < |before| && KeyOf(before[i]) == KeyOf(r)
  {
    var after := before + [r];
    if i :| 0 <= i < |before| && KeyOf(before[i]) == KeyOf(r) {
      assert KeyOf(after[i]) == KeyOf(after[|before|]);
    }
  }

  lemma ViewOfStep(rs: seq<Record>, i: nat)
    requires i < |rs| && DistinctKeys(rs[..i])
    ensures ViewOf(rs[..i + 1]) == ViewOf(rs[..i])[KeyOf(rs[i]) := rs[i]]
    ensures DistinctKeys(rs[..i + 1]) <==> KeyOf(rs[i]) !in ViewOf(rs[..i])
    ensures DistinctKeys(rs) ==> DistinctKeys(rs[..i + 1])
  {
    var before, after := rs[..i], rs[..i + 1];
    assert after[..i] == before && after == before + [rs[i]];
    InViewOf(before, KeyOf(rs[i]));
    OneMoreDistinct(before, rs[i]);
  }

  /** s lists v in key order. */
  ghost predicate IsSnapshot(v: View, s: seq<Record>) {
    && Ascending(ByKey, s)
    && (forall r :: r in s ==> KeyOf(r) in v && v[KeyOf(r)] == r)
    && (forall k :: k in v ==> v[k] in s && KeyOf(v[k]) == k)
  }

  lemma SnapshotInsert(v: View, s: seq<Record>, r: Record)
    requires IsSnapshot(v, s) && KeyOf(r) !in v
    ensures IsSnapshot(v[KeyOf(r) := r], Insert(ByKey, s, r))
  {
    ByKeyIsStrictOrder();
    forall y | y in s ensures y == r || ByKey(r, y) || ByKey(y, r) {
      ByKeyTotal(r, y);
    }
    InsertAscending(ByKey, s, r);
    forall y ensures y in Insert(ByKey, s, r) <==> y in s || y == r {
      assert y in Elements(Insert(ByKey, s, r)) <==> y in Elements(s) + {r};
    }
  }

  lemma {:induction false} SnapshotExists(v: View)
    requires Keyed(v)
    ensures exists s :: IsSnapshot(v, s)
    decreases |v.Keys|
  {
    if v.Keys == {} {
      assert IsSnapshot(v, []);
    } else {
      var k :| k in v.Keys;
      var rest := v - {k};
      assert rest.Keys == v.Keys - {k};
      SnapshotExists(rest);
      var s :| IsSnapshot(rest, s);
      SnapshotInsert(rest, s, v[k]);
      assert v == rest[k := v[k]];
    }
  }

  ghost function SnapshotOf(v: View): (s: seq<Record>)
    requires Keyed(v)
    ensures IsSnapshot(v, s)
  {
    SnapshotExists(v);
    var s :| IsSnapshot(v, s);
    s
  }

  lemma SnapshotUnique(v: View, s: seq<Record>)
    requires IsSnapshot(v, s)
    ensures Keyed(v) && s == SnapshotOf(v)
  {
    ByKeyIsStrictOrder();
    var t := SnapshotOf(v);
    assert Elements(s) == Elements(t);
    AscendingUnique(ByKey, s, t);
  }

  /** A snapshot has distinct keys and rebuilds the view it was taken from. */
  lemma SnapshotRoundTrip(v: View)
    requires Keyed(v)
    ensures DistinctKeys(SnapshotOf(v)) && ViewOf(SnapshotOf(v)) == v
  {
    var s := SnapshotOf(v);
    AscendingDistinct(s);
    ViewOfKeys(s);
    forall k | k in v ensures k in ViewOf(s) && ViewOf(s)[k] == v[k] {
      var i :| 0 <= i < |s| && s[i] == v[k];
      assert ViewOf(s)[KeyOf(s[i])] == s[i];
    }
  }
}
