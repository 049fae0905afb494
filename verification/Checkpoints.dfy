/** Checkpoint validation and normal form (normalizeCheckpoint, normalizeCheckpointRecords). */
module Checkpoints {
  import opened Orders
  import opened Bytes
  import opened Versions
  import opened Outcomes
  import opened Records

  function RecordFault(env: Env, watermark: Version, r: Record): Option<Error> {
    match Validate(env, r)
    case Some(e) => Some(e)
    case None => if watermark.Lt(r.version) then Some(Conflict) else None
  }

  /** The fault of the first faulty record. */
  function FirstFault(env: Env, watermark: Version, rs: seq<Record>): Option<Error> {
    if rs == [] then None
    else
      var f := FirstFault(env, watermark, rs[..|rs| - 1]);
      if f.Some? then f else RecordFault(env, watermark, rs[|rs| - 1])
  }

  lemma {:induction false} FirstFaultPrefix(env: Env, watermark: Version, rs: seq<Record>, n: nat)
    requires n <= |rs| && FirstFault(env, watermark, rs[..n]).Some?
    ensures FirstFault(env, watermark, rs) == FirstFault(env, watermark, rs[..n])
  {
    if n < |rs| {
      assert rs[..|rs| - 1][..n] == rs[..n];
      FirstFaultPrefix(env, watermark, rs[..|rs| - 1], n);
    } else {
      assert rs[..n] == rs;
    }
  }

  lemma {:induction false} FaultFree(env: Env, watermark: Version, rs: seq<Record>)
    ensures FirstFault(env, watermark, rs).None? <==>
            AllValid(env, rs) && forall i :: 0 <= i < |rs| ==> rs[i].version.Le(watermark)
  {
    if rs != [] {
      var init, last := rs[..|rs| - 1], rs[|rs| - 1];
      FaultFree(env, watermark, init);
      assert rs == init + [last];
    }
  }

  /** normalizeCheckpoint: the checkpoint in key order, or the error the source reports. */
  ghost function Normalize(env: Env, c: Checkpoint): Result<Checkpoint> {
    if c.watermark.IsZero() && c.records != [] then Err(ZeroVersion)
    else match FirstFault(env, c.watermark, c.records)
      case Some(e) => Err(e)
      case None =>
        ViewOfKeys(c.records);
        if DistinctKeys(c.records) then Ok(Checkpoint(c.watermark, SnapshotOf(ViewOf(c.records))))
        else Err(DuplicateLogicalKey)
  }

  /** The refusals of a checkpoint: records without a watermark, the first faulty record, one above the watermark, a repeated key. */
  lemma NormalizeRefused(env: Env, c: Checkpoint, i: nat)
    requires i <= |c.records| && AllValid(env, c.records[..i])
    requires forall j :: 0 <= j < i ==> c.records[j].version.Le(c.watermark)
    ensures c.watermark == Zero && c.records != [] ==> Normalize(env, c) == Err(ZeroVersion)
    ensures c.watermark != Zero && i < |c.records| ==>
              && (!Valid(env, c.records[i]) ==> Normalize(env, c) == Err(Validate(env, c.records[i]).value))
              && (Valid(env, c.records[i]) && c.watermark.Lt(c.records[i].version) ==> Normalize(env, c) == Err(Conflict))
    ensures c.watermark != Zero && i == |c.records| && !DistinctKeys(c.records) ==> Normalize(env, c) == Err(DuplicateLogicalKey)
  {
    hide Validate, SnapshotOf, ViewOf;
    FaultFree(env, c.watermark, c.records[..i]);
    if i < |c.records| {
      assert c.records[..i + 1][..i] == c.records[..i];
      if RecordFault(env, c.watermark, c.records[i]).Some? {
        FirstFaultPrefix(env, c.watermark, c.records, i + 1);
      }
    } else {
      assert c.records[..i] == c.records;
    }
  }

  method NormalizeCheckpoint(env: Env, c: Checkpoint) returns (res: Result<Checkpoint>)
    ensures res == Normalize(env, c)
  {
    var rs := c.records;
    if c.watermark.IsZero() && rs != [] {
      return Err(ZeroVersion);
    }
    for i := 0 to |rs|
      invariant FirstFault(env, c.watermark, rs[..i]).None?
    {
      var f := RecordFault(env, c.watermark, rs[i]);
      assert rs[..i + 1][..i] == rs[..i];
      if f.Some? {
        FirstFaultPrefix(env, c.watermark, rs, i + 1);
        return Err(f.value);
      }
    }
    assert rs[..|rs|] == rs;
    res := SortDistinct(c);
  }

  /** The sort and the duplicate scan of normalizeCheckpointRecords. */
  method SortDistinct(c: Checkpoint) returns (res: Result<Checkpoint>)
    ensures Keyed(ViewOf(c.records))
    ensures res == if DistinctKeys(c.records) then Ok(Checkpoint(c.watermark, SnapshotOf(ViewOf(c.records))))
                   else Err(DuplicateLogicalKey)
  {
    var rs := c.records;
    ViewOfKeys(rs);
    var out: seq<Record> := [];
    for i := 0 to |rs|
      invariant DistinctKeys(rs[..i]) && IsSnapshot(ViewOf(rs[..i]), out)
    {
      ViewOfStep(rs, i);
      if exists j :: 0 <= j < |out| && KeyOf(out[j]) == KeyOf(rs[i]) {
        return Err(DuplicateLogicalKey);
      }
      SnapshotInsert(ViewOf(rs[..i]), out, rs[i]);
      out := Insert(ByKey, out, rs[i]);
    }
    assert rs[..|rs|] == rs;
    SnapshotUnique(ViewOf(rs), out);
    res := Ok(Checkpoint(c.watermark, out));
  }

  /** A checkpoint as it is stored: valid records at or below the watermark, in key order. */
  ghost predicate NormalForm(env: Env, c: Checkpoint) {
    && (c.watermark.IsZero() ==> c.records == [])
    && AllValid(env, c.records)
    && (forall i :: 0 <= i < |c.records| ==> c.records[i].version.Le(c.watermark))
    && Ascending(ByKey, c.records)
  }

  /** What normalization accepts, what it returns, and that it leaves a normal form alone. */
  lemma NormalizeMeaning(env: Env, c: Checkpoint)
    ensures Normalize(env, c).Ok? <==>
            && (c.watermark.IsZero() ==> c.records == [])
            && AllValid(env, c.records)
            && (forall i :: 0 <= i < |c.records| ==> c.records[i].version.Le(c.watermark))
            && DistinctKeys(c.records)
    ensures Normalize(env, c).Ok? ==>
              var n := Normalize(env, c).value;
              NormalForm(env, n) && n.watermark == c.watermark && ViewOf(n.records) == ViewOf(c.records)
    ensures NormalForm(env, c) ==> Normalize(env, c) == Ok(c)
  {
    FaultFree(env, c.watermark, c.records);
    ViewOfKeys(c.records);
    if Normalize(env, c).Ok? {
      SnapshotRoundTrip(ViewOf(c.records));
      SortedElements(c.records);
    }
    if NormalForm(env, c) {
      NormalFormIsSnapshot(env, c);
      SnapshotUnique(ViewOf(c.records), c.records);
    }
  }

  lemma NormalizeOk(env: Env, c: Checkpoint)
    requires Normalize(env, c).Ok?
    ensures var n := Normalize(env, c).value;
            NormalForm(env, n) && n.watermark == c.watermark && ViewOf(n.records) == ViewOf(c.records)
  {
    NormalizeMeaning(env, c);
  }

  lemma SortedElements(rs: seq<Record>)
    requires Keyed(ViewOf(rs))
    ensures forall i :: 0 <= i < |SnapshotOf(ViewOf(rs))| ==> SnapshotOf(ViewOf(rs))[i] in rs
    ensures rs == [] ==> SnapshotOf(ViewOf(rs)) == []
  {
    ViewOfKeys(rs);
    var s := SnapshotOf(ViewOf(rs));
    forall i | 0 <= i < |s| ensures s[i] in rs {
      assert s[i] in s;
    }
    if rs == [] {
      SnapshotUnique(ViewOf(rs), []);
    }
  }

  lemma NormalFormIsSnapshot(env: Env, c: Checkpoint)
    requires NormalForm(env, c)
    ensures DistinctKeys(c.records) && IsSnapshot(ViewOf(c.records), c.records)
    ensures Keyed(ViewOf(c.records)) && Bounded(ViewOf(c.records), c.watermark)
  {
    AscendingDistinct(c.records);
    ViewOfKeys(c.records);
  }

  /** The snapshot of a store bounded by w is a checkpoint at w. */
  lemma SnapshotNormalForm(env: Env, v: View, w: Version)
    requires Keyed(v) && Bounded(v, w) && (w.IsZero() ==> v == map[])
    requires forall k :: k in v ==> Valid(env, v[k])
    ensures NormalForm(env, Checkpoint(w, SnapshotOf(v)))
  {
    var s := SnapshotOf(v);
    forall i | 0 <= i < |s| ensures Valid(env, s[i]) && s[i].version.Le(w) {
      assert s[i] in s;
    }
    if w.IsZero() {
      SnapshotUnique(v, []);
    }
  }
}
