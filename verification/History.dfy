/** One source history and the store it stands for at every version. */
module History {
  import opened Orders
  import opened Versions
  import opened Outcomes
  import opened Records
  import opened Merging
  import opened Codec
  import opened Logs

  function Tip(h: seq<Record>): Version {
    LastOf(Zero, h)
  }

  /** The store after every record of h at or below v. */
  function Fold(h: seq<Record>, v: Version): View {
    MergeAll(map[], h[..Cut(h, v)])
  }

  lemma CutMonotone(h: seq<Record>, v: Version, w: Version)
    requires Increasing(Zero, h) && v.Le(w)
    ensures Cut(h, v) <= Cut(h, w)
  {
    CutMeaning(h, v);
    CutMeaning(h, w);
  }

  /** Cutting at a record's own version keeps that record and nothing after it. */
  lemma CutAt(h: seq<Record>, i: nat)
    requires Increasing(Zero, h) && i < |h|
    ensures Cut(h, h[i].version) == i + 1
  {
    CutUnique(h, h[i].version, i + 1);
  }

  lemma CutTip(h: seq<Record>, v: Version)
    requires Increasing(Zero, h) && Tip(h).Le(v)
    ensures Cut(h, v) == |h|
  {
    CutUnique(h, v, |h|);
  }

  lemma CutBelow(h: seq<Record>, v: Version, i: nat)
    requires Increasing(Zero, h) && i < |h|
    ensures i < Cut(h, v) <==> h[i].version.Le(v)
  {
    CutMeaning(h, v);
    if Cut(h, v) <= i {
      AboveCut(Zero, h, v, i);
    }
  }

  /** A longer history does not change what is at or below an old version. */
  lemma CutGrow(h: seq<Record>, r: Record, v: Version)
    requires Increasing(Zero, h) && v.Le(Tip(h)) && Tip(h).Lt(r.version)
    ensures Cut(h + [r], v) == Cut(h, v)
    ensures Fold(h + [r], v) == Fold(h, v)
  {
    var c := Cut(h, v);
    CutMeaning(h, v);
    CutUnique(h + [r], v, c);
    assert (h + [r])[..c] == h[..c];
  }

  lemma FoldKeyed(h: seq<Record>, v: Version)
    requires Increasing(Zero, h)
    ensures Keyed(Fold(h, v)) && Bounded(Fold(h, v), v)
  {
    var c := Cut(h, v);
    ReplayBounded(map[], Zero, h[..c]);
    CutMeaning(h, v);
  }

  /** The next record after v is new to the store at v and carries it to its own version. */
  lemma FoldNext(h: seq<Record>, v: Version)
    requires Increasing(Zero, h) && Cut(h, v) < |h|
    ensures var r := h[Cut(h, v)];
            && v.Lt(r.version)
            && Classify(r, Lookup(Fold(h, v), KeyOf(r))) == Ok(ApplyResult(Applied, r.version))
            && Fold(h, r.version) == Fold(h, v)[KeyOf(r) := r] == Merge(Fold(h, v), r)
  {
    var i := Cut(h, v);
    CutMeaning(h, v);
    CutAt(h, i);
    ReplayApplies(map[], Zero, h, i);
  }

  /** A record at or below v is already in the store at v: applying it is accepted and changes nothing. */
  lemma FoldAgain(h: seq<Record>, v: Version, i: nat)
    requires Increasing(Zero, h) && i < Cut(h, v)
    ensures var c := Classify(h[i], Lookup(Fold(h, v), KeyOf(h[i])));
            c.Ok? && !c.value.outcome.Applied?
    ensures Merge(Fold(h, v), h[i]) == Fold(h, v)
  {
    ReplayAgain(Zero, h[..Cut(h, v)], i);
  }

  /** Folding the stretch between two versions over the store at the first gives the store at the second. */
  lemma FoldStretch(h: seq<Record>, v: Version, w: Version)
    requires Increasing(Zero, h) && v.Le(w)
    ensures Cut(h, v) <= Cut(h, w)
    ensures MergeAll(Fold(h, v), h[Cut(h, v)..Cut(h, w)]) == Fold(h, w)
  {
    CutMonotone(h, v, w);
    assert h[..Cut(h, w)] == h[..Cut(h, v)] + h[Cut(h, v)..Cut(h, w)];
    MergeAllAppend(map[], h[..Cut(h, v)], h[Cut(h, v)..Cut(h, w)]);
  }

  // ---- a journal that holds the end of a history ----

  /** log holds exactly the records of h above its floor. */
  ghost predicate Tracks(h: seq<Record>, log: Log) {
    Increasing(Zero, h) && log.floor.Le(Tip(h)) && log.records == h[Cut(h, log.floor)..]
  }

  lemma TracksLast(h: seq<Record>, log: Log)
    requires Tracks(h, log)
    ensures log.Last() == Tip(h)
  {
    CutMeaning(h, log.floor);
    if log.records == [] && h != [] {
      assert h[|h| - 1].version.Le(log.floor);
    }
  }

  lemma CutShift(h: seq<Record>, c: nat, v: Version)
    requires c <= Cut(h, v)
    ensures Cut(h[c..], v) == Cut(h, v) - c
  {
    var n := Cut(h, v);
    CutMeaning(h, v);
    forall i | 0 <= i < n - c ensures h[c..][i].version.Le(v) {
      assert h[c + i].version.Le(v);
    }
    CutUnique(h[c..], v, n - c);
  }

  /** The cut of the journal is the cut of the history, shifted by what lies below the floor. */
  lemma TracksCut(h: seq<Record>, log: Log, v: Version)
    requires Tracks(h, log) && log.floor.Le(v)
    ensures Cut(h, log.floor) + Cut(log.records, v) == Cut(h, v)
  {
    CutMonotone(h, log.floor, v);
    CutShift(h, Cut(h, log.floor), v);
  }

  lemma TracksStretch(h: seq<Record>, log: Log, v: Version, w: Version)
    requires Tracks(h, log) && log.floor.Le(v) && v.Le(w)
    ensures Cut(log.records, v) <= Cut(log.records, w) && Cut(h, v) <= Cut(h, w)
    ensures log.records[Cut(log.records, v)..Cut(log.records, w)] == h[Cut(h, v)..Cut(h, w)]
  {
    TracksCut(h, log, v);
    TracksCut(h, log, w);
    CutMonotone(h, v, w);
    var c, i, j := Cut(h, log.floor), Cut(log.records, v), Cut(log.records, w);
    SliceOfRest(h, c, i, j);
  }

  lemma TracksAppend(h: seq<Record>, log: Log, r: Record)
    requires Tracks(h, log) && Tip(h).Lt(r.version)
    ensures Tracks(h + [r], Log(log.floor, log.records + [r]))
  {
    CutGrow(h, r, log.floor);
    var c := Cut(h, log.floor);
    assert (h + [r])[c..] == h[c..] + [r];
  }
}
