/** What the last-writer-wins store computes: order independence, and replay of increasing histories. */
module Merging {
  import opened Orders
  import opened Bytes
  import opened Versions
  import opened Outcomes
  import opened Records

  // ---- order independence ----

  /** No two different bodies at one key and version. */
  ghost predicate Consistent(rs: set<Record>) {
    forall r, s :: r in rs && s in rs && KeyOf(r) == KeyOf(s) && r.version == s.version ==> BodyEqual(r, s)
  }

  /** v holds, for every key written in rs, its record of highest version, and nothing else. */
  ghost predicate IsNewest(rs: set<Record>, v: View) {
    && (forall k :: k in v ==> v[k] in rs && KeyOf(v[k]) == k)
    && (forall r :: r in rs ==> KeyOf(r) in v && r.version.Le(v[KeyOf(r)].version))
  }

  lemma NewestUnique(rs: set<Record>, v: View, w: View)
    requires Consistent(rs) && IsNewest(rs, v) && IsNewest(rs, w)
    ensures v == w
  {
    forall k | k in v ensures k in w && v[k] == w[k] {
      assert v[k] in rs;
      assert w[k] in rs;
      assert BodyEqual(v[k], w[k]);
    }
  }

  lemma MergeNewest(rs: set<Record>, v: View, r: Record)
    requires Consistent(rs + {r}) && IsNewest(rs, v)
    ensures Classify(r, Lookup(v, KeyOf(r))).Ok?
    ensures IsNewest(rs + {r}, Merge(v, r))
  {
    if KeyOf(r) in v {
      assert v[KeyOf(r)] in rs + {r};
    }
  }

  lemma {:induction false} MergeAllNewest(rs: seq<Record>)
    requires Consistent(Elements(rs))
    ensures IsNewest(Elements(rs), MergeAll(map[], rs))
  {
    if rs != [] {
      var init, last := rs[..|rs| - 1], rs[|rs| - 1];
      assert rs == init + [last];
      ElementsAppend(init, [last]);
      assert Elements([last]) == {last};
      MergeAllNewest(init);
      MergeNewest(Elements(init), MergeAll(map[], init), last);
    }
  }

  /**
   * Applying consistent records in any order and with any repetition gives the same store: the
   * highest version of each key.
   */
  lemma OrderIndependence(rs: seq<Record>, ts: seq<Record>)
    requires Elements(rs) == Elements(ts) && Consistent(Elements(rs))
    ensures MergeAll(map[], rs) == MergeAll(map[], ts)
    ensures IsNewest(Elements(rs), MergeAll(map[], rs))
  {
    MergeAllNewest(rs);
    MergeAllNewest(ts);
    NewestUnique(Elements(rs), MergeAll(map[], rs), MergeAll(map[], ts));
  }

  /** None of them is refused on the way, in whatever order they come. */
  lemma OrderAccepted(ts: seq<Record>, i: nat)
    requires Consistent(Elements(ts)) && i < |ts|
    ensures Classify(ts[i], Lookup(MergeAll(map[], ts[..i]), KeyOf(ts[i]))).Ok?
  {
    var seen := Elements(ts[..i]);
    assert seen + {ts[i]} <= Elements(ts);
    MergeAllNewest(ts[..i]);
    MergeNewest(seen, MergeAll(map[], ts[..i]), ts[i]);
  }

  /** A same-version record with another body is refused whenever the stored record is that version. */
  lemma ConflictRefused(v: View, r: Record)
    ensures Classify(r, Lookup(v, KeyOf(r))) == Err(Conflict) <==>
            KeyOf(r) in v && v[KeyOf(r)].version == r.version && !BodyEqual(v[KeyOf(r)], r)
    ensures Classify(r, Lookup(v, KeyOf(r))).Err? ==> Merge(v, r) == v
  {
  }

  // ---- increasing histories ----

  /** Versions rise strictly, starting above from. */
  ghost predicate Increasing(from: Version, rs: seq<Record>) {
    && (forall i :: 0 <= i < |rs| ==> from.Lt(rs[i].version))
    && (forall i, j :: 0 <= i < j < |rs| ==> rs[i].version.Lt(rs[j].version))
  }

  function LastOf(from: Version, rs: seq<Record>): Version {
    if rs == [] then from else rs[|rs| - 1].version
  }

  lemma {:induction false} MergeAllAppend(v: View, rs: seq<Record>, ts: seq<Record>)
    ensures MergeAll(v, rs + ts) == MergeAll(MergeAll(v, rs), ts)
  {
    if ts == [] {
      assert rs + ts == rs;
    } else {
      assert (rs + ts)[..|rs + ts| - 1] == rs + ts[..|ts| - 1];
      MergeAllAppend(v, rs, ts[..|ts| - 1]);
    }
  }

  lemma MergeNewer(v: View, w: Version, r: Record)
    requires Keyed(v) && Bounded(v, w) && w.Lt(r.version)
    ensures Classify(r, Lookup(v, KeyOf(r))) == Ok(ApplyResult(Applied, r.version))
    ensures Merge(v, r) == v[KeyOf(r) := r]
    ensures Keyed(Merge(v, r)) && Bounded(Merge(v, r), r.version)
  {
  }

  lemma {:induction false} ReplayBounded(v: View, from: Version, rs: seq<Record>)
    requires Keyed(v) && Bounded(v, from) && Increasing(from, rs)
    ensures Keyed(MergeAll(v, rs)) && Bounded(MergeAll(v, rs), LastOf(from, rs))
  {
    if rs != [] {
      var init := rs[..|rs| - 1];
      ReplayBounded(v, from, init);
      MergeNewer(MergeAll(v, init), LastOf(from, init), rs[|rs| - 1]);
    }
  }

  /** Replaying an increasing history over an older store applies every record of it. */
  lemma ReplayApplies(v: View, from: Version, rs: seq<Record>, i: nat)
    requires Keyed(v) && Bounded(v, from) && Increasing(from, rs) && i < |rs|
    ensures Classify(rs[i], Lookup(MergeAll(v, rs[..i]), KeyOf(rs[i]))) == Ok(ApplyResult(Applied, rs[i].version))
    ensures MergeAll(v, rs[..i + 1]) == MergeAll(v, rs[..i])[KeyOf(rs[i]) := rs[i]]
  {
    ReplayBounded(v, from, rs[..i]);
    MergeNewer(MergeAll(v, rs[..i]), LastOf(from, rs[..i]), rs[i]);
    assert rs[..i + 1][..i] == rs[..i];
  }

  /** The records of an increasing history are pairwise consistent. */
  lemma IncreasingConsistent(from: Version, rs: seq<Record>)
    requires Increasing(from, rs)
    ensures Consistent(Elements(rs))
  {
    forall r, s | r in Elements(rs) && s in Elements(rs) && r.version == s.version ensures r == s {
      var i :| 0 <= i < |rs| && rs[i] == r;
      var j :| 0 <= j < |rs| && rs[j] == s;
    }
  }

  /** A record already folded in is a duplicate or stale: applying it again is accepted and changes nothing. */
  lemma ReplayAgain(from: Version, rs: seq<Record>, i: nat)
    requires Increasing(from, rs) && i < |rs|
    ensures Classify(rs[i], Lookup(MergeAll(map[], rs), KeyOf(rs[i]))).Ok?
    ensures !Classify(rs[i], Lookup(MergeAll(map[], rs), KeyOf(rs[i]))).value.outcome.Applied?
    ensures Merge(MergeAll(map[], rs), rs[i]) == MergeAll(map[], rs)
  {
    IncreasingConsistent(from, rs);
    MergeAllNewest(rs);
    assert rs[i] in Elements(rs);
    var k := KeyOf(rs[i]);
    assert MergeAll(map[], rs)[k] in Elements(rs);
  }
}
