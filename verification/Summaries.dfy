/** Fingerprints of a blob inventory, from a whole list or page by page (storage/inventory.go). */
module Summaries {
  import opened Orders
  import opened Bytes
  import opened Outcomes
  import opened Pager

  datatype Summary = Summary(keyCount: nat, keyBytes: nat, digest: seq<byte>)

  /** The running aggregate: counters and the bytes written to the hash so far. */
  datatype Tally = Tally(count: nat, bytes: nat, hashed: seq<byte>)

  type Sha = seq<byte> -> seq<byte>

  // from a cursor to a page and the cursor behind it
  type PageSource = BlobKey -> (seq<BlobKey>, BlobKey)

  /** appendInventoryKey */
  function AddKey(t: Tally, k: BlobKey): Result<Tally> {
    if k == [] then Err(KeyEmpty)
    else if |k| >= 0x1_0000_0000 then Err(KeyTooLarge)
    else Ok(Tally(t.count + 1, t.bytes + |k|, t.hashed + PutU32(|k|) + k))
  }

  function TallyOf(ks: seq<BlobKey>): Result<Tally> {
    if ks == [] then Ok(Tally(0, 0, []))
    else match TallyOf(ks[..|ks| - 1])
      case Err(e) => Err(e)
      case Ok(t) => AddKey(t, ks[|ks| - 1])
  }

  function SummaryOf(sha: Sha, ks: seq<BlobKey>): Result<Summary> {
    match TallyOf(ks)
    case Err(e) => Err(e)
    case Ok(t) => Ok(Summary(t.count, t.bytes, sha(t.hashed)))
  }

  // ---- what the digest fixes ----

  predicate Sized(k: BlobKey) {
    0 < |k| < 0x1_0000_0000
  }

  /** Each key behind its length, the first key first. */
  function Framed(ks: seq<BlobKey>): seq<byte>
    requires forall i :: 0 <= i < |ks| ==> Sized(ks[i])
  {
    if ks == [] then [] else assert Sized(ks[0]); PutU32(|ks[0]|) + ks[0] + Framed(ks[1..])
  }

  lemma {:induction false} FramedAppend(ks: seq<BlobKey>, k: BlobKey)
    requires forall i :: 0 <= i < |ks| ==> Sized(ks[i])
    requires Sized(k)
    ensures Framed(ks + [k]) == Framed(ks) + PutU32(|k|) + k
  {
    hide PutU32;
    if ks == [] {
      assert ks + [k] == [k] && Framed([k][1..]) == [];
    } else {
      FramedAppend(ks[1..], k);
      assert (ks + [k])[1..] == ks[1..] + [k];
    }
  }

  /** A tally exists exactly for lists of well-sized keys, and is then the framed list. */
  lemma {:induction false} TallyMeaning(ks: seq<BlobKey>)
    ensures TallyOf(ks).Ok? <==> forall i :: 0 <= i < |ks| ==> Sized(ks[i])
    ensures TallyOf(ks).Ok? ==> var t := TallyOf(ks).value;
              t.count == |ks| && t.hashed == Framed(ks) && |t.hashed| == t.bytes + 4 * t.count
  {
    hide PutU32, Framed;
    if ks == [] {
      EmptyFrame();
    } else {
      var init, last := ks[..|ks| - 1], ks[|ks| - 1];
      TallyMeaning(init);
      assert ks == init + [last];
      if TallyOf(init).Ok? && Sized(last) {
        FramedAppend(init, last);
      }
    }
  }

  lemma EmptyFrame()
    ensures Framed([]) == []
  {
  }

  /** Different inventories are hashed from different bytes: the framed list can be read back. */
  lemma {:induction false} FramedInjective(a: seq<BlobKey>, b: seq<BlobKey>)
    requires (forall i :: 0 <= i < |a| ==> Sized(a[i])) && forall i :: 0 <= i < |b| ==> Sized(b[i])
    requires Framed(a) == Framed(b)
    ensures a == b
    decreases |a|
  {
    hide PutU32;
    if a != [] && b != [] {
      FirstFrame(a[0], Framed(a[1..]), b[0], Framed(b[1..]));
      FramedInjective(a[1..], b[1..]);
      assert a == [a[0]] + a[1..] && b == [b[0]] + b[1..];
    }
  }

  lemma FirstFrame(k: BlobKey, s: seq<byte>, l: BlobKey, t: seq<byte>)
    requires Sized(k) && Sized(l) && PutU32(|k|) + k + s == PutU32(|l|) + l + t
    ensures k == l && s == t
  {
    hide PutU32;
    var left, right := PutU32(|k|) + k + s, PutU32(|l|) + l + t;
    assert left[..4] == PutU32(|k|) && right[..4] == PutU32(|l|);
    U32RoundTrip(|k|);
    U32RoundTrip(|l|);
    assert left[4..4 + |k|] == k && right[4..4 + |l|] == l;
    assert left[4 + |k|..] == s && right[4 + |l|..] == t;
  }

  /** With a hash that separates the two byte strings, equal summaries mean equal inventories. */
  lemma SummaryFixesInventory(sha: Sha, a: seq<BlobKey>, b: seq<BlobKey>)
    requires SummaryOf(sha, a).Ok? && SummaryOf(sha, b).Ok?
    requires forall x, y :: sha(x) == sha(y) ==> x == y
    ensures SummaryOf(sha, a) == SummaryOf(sha, b) <==> a == b
  {
    TallyMeaning(a);
    TallyMeaning(b);
    if SummaryOf(sha, a) == SummaryOf(sha, b) {
      FramedInjective(a, b);
    }
  }

  // ---- from a whole list ----

  method SummarizeKeys(sha: Sha, ks: seq<BlobKey>) returns (res: Result<Summary>)
    ensures res == SummaryOf(sha, ks)
  {
    var tally := AddKeys(Tally(0, 0, []), ks, []);
    assert [] + ks == ks;
    res := match tally
           case Err(e) => Err(e)
           case Ok(t) => Ok(Summary(t.count, t.bytes, sha(t.hashed)));
  }

  /** Adds a list to a tally; before is the list already in it. */
  method AddKeys(start: Tally, ks: seq<BlobKey>, ghost before: seq<BlobKey>) returns (res: Result<Tally>)
    requires TallyOf(before) == Ok(start)
    ensures res == TallyOf(before + ks)
  {
    hide TallyOf, AddKey;
    var t := start;
    assert before + ks[..0] == before && ks[..|ks|] == ks;
    for i := 0 to |ks|
      invariant TallyOf(before + ks[..i]) == Ok(t)
    {
      TallyStep(before, ks, i);
      var next := AddKey(t, ks[i]);
      if next.Err? {
        return Err(next.error);
      }
      t := next.value;
    }
    res := Ok(t);
  }

  lemma TallyStep(before: seq<BlobKey>, ks: seq<BlobKey>, i: nat)
    requires i < |ks| && TallyOf(before + ks[..i]).Ok?
    ensures TallyOf(before + ks[..i + 1]) == AddKey(TallyOf(before + ks[..i]).value, ks[i])
    ensures TallyOf(before + ks[..i + 1]).Err? ==> TallyOf(before + ks) == TallyOf(before + ks[..i + 1])
  {
    hide AddKey;
    var more := before + ks[..i + 1];
    assert more[..|more| - 1] == before + ks[..i];
    assert (before + ks)[..|more|] == more;
    TallyFails(before + ks, |more|);
  }

  /** The first refused key decides. */
  lemma {:induction false} TallyFails(ks: seq<BlobKey>, n: nat)
    requires n <= |ks|
    ensures TallyOf(ks[..n]).Err? ==> TallyOf(ks) == TallyOf(ks[..n])
  {
    if n == |ks| {
      assert ks[..n] == ks;
    } else {
      TallyFails(ks[..|ks| - 1], n);
      assert ks[..|ks| - 1][..n] == ks[..n];
    }
  }

  /** The refusal of a list is that of its first key without a proper size. */
  lemma {:induction false} TallyRefused(ks: seq<BlobKey>, i: nat)
    requires i < |ks| && !Sized(ks[i]) && forall j :: 0 <= j < i ==> Sized(ks[j])
    ensures TallyOf(ks) == Err(if ks[i] == [] then KeyEmpty else KeyTooLarge)
  {
    if i < |ks| - 1 {
      TallyRefused(ks[..|ks| - 1], i);
    } else {
      TallyMeaning(ks[..i]);
    }
  }

  // ---- page by page ----

  /** What summarizePagedInventory demands of a page that is not empty. */
  ghost predicate PageOk(cursor: BlobKey, page: seq<BlobKey>, next: BlobKey) {
    && 0 < |page| <= DefaultKeyPageSize && next != [] && next == page[|page| - 1]
    && Ascending(Less, page) && [] !in page && forall i :: 0 <= i < |page| ==> IsAfter(cursor, page[i])
  }

  method CheckPage(cursor: BlobKey, page: seq<BlobKey>, next: BlobKey) returns (err: Option<Error>)
    requires page != []
    ensures err.None? <==> PageOk(cursor, page, next)
    ensures |page| > DefaultKeyPageSize || next == [] || next != page[|page| - 1] ==> err == Some(InventoryPagerInvalid)
    ensures err.Some? ==> err == Some(InventoryPagerInvalid) || (err == Some(KeyEmpty) && [] in page)
  {
    if |page| > DefaultKeyPageSize || next == [] || next != page[|page| - 1] {
      return Some(InventoryPagerInvalid);
    }
    for i := 0 to |page|
      invariant Ascending(Less, page[..i]) && [] !in page[..i] && forall j :: 0 <= j < i ==> IsAfter(cursor, page[j])
    {
      assert page[..i + 1] == page[..i] + [page[i]];
      if page[i] == [] {
        return Some(KeyEmpty);
      }
      if !IsAfter(cursor, page[i]) {
        return Some(InventoryPagerInvalid);
      }
      if i > 0 && !Less(page[i - 1], page[i]) {
        return Some(InventoryPagerInvalid);
      }
      ExtendAscending(page, i);
    }
    assert page[..|page|] == page;
    err := None;
  }

  lemma ExtendAscending(page: seq<BlobKey>, i: nat)
    requires i < |page| && Ascending(Less, page[..i]) && (i > 0 ==> Less(page[i - 1], page[i]))
    ensures Ascending(Less, page[..i + 1])
  {
    forall j | 0 <= j < i ensures Less(page[j], page[i]) {
      if j < i - 1 {
        assert page[..i][j] == page[j] && page[..i][i - 1] == page[i - 1];
        LessTransitive(page[j], page[i - 1], page[i]);
      }
    }
    assert page[..i + 1] == page[..i] + [page[i]];
    AscendingJoin(Less, page[..i], [page[i]]);
  }

  function CursorOf(ks: seq<BlobKey>): BlobKey {
    if ks == [] then [] else ks[|ks| - 1]
  }

  /** A source that serves the pages of one ordered list. */
  ghost predicate Serves(source: PageSource, ks: seq<BlobKey>) {
    && Ascending(Less, ks) && [] !in ks
    && forall c :: source(c) == (PageAt(ks, c, DefaultKeyPageSize), CursorOf(PageAt(ks, c, DefaultKeyPageSize)))
  }

  /** A store's pages are those of its ordered key list. */
  lemma StoreServes(keys: set<BlobKey>, ks: seq<BlobKey>, after: BlobKey, limit: nat, page: seq<BlobKey>)
    requires IsIndex(keys, ks) && IsPage(keys, after, limit, page)
    ensures page == PageAt(ks, after, limit)
  {
    PageAtIsPage(keys, ks, after, limit);
    PageUnique(keys, after, limit, page, PageAt(ks, after, limit));
  }

  /**
   * summarizePagedInventory over any source whose keys come from a finite universe. A summary it returns is
   * that of a strictly ascending list, and over a source serving a list it is the summary of that list.
   */
  method SummarizePaged(sha: Sha, source: PageSource, ghost universe: set<BlobKey>, ghost served: Option<seq<BlobKey>>)
      returns (res: Result<Summary>, ghost walked: seq<BlobKey>)
    requires forall c, k :: k in source(c).0 ==> k in universe
    requires served.Some? ==> Serves(source, served.value)
    ensures res.Ok? ==> Ascending(Less, walked) && [] !in walked && res == SummaryOf(sha, walked)
    ensures served.Some? ==> res == SummaryOf(sha, served.value)
  {
    hide Ascending, Less, PageOk, Serves, TallyOf;
    walked := [];
    var tally, cursor: BlobKey := Tally(0, 0, []), [];
    WalkedNothing(served);
    while true
      invariant Walked(walked, cursor, universe) && TallyOf(walked) == Ok(tally)
      invariant served.Some? ==> walked == served.value[..Rank(served.value, cursor)]
      decreases |universe| - |walked|
    {
      var (page, next) := source(cursor);
      if served.Some? {
        ServedPage(source, served.value, cursor);
      }
      if page == [] {
        if next != [] {
          return Err(InventoryPagerInvalid), walked;
        }
        return Ok(Summary(tally.count, tally.bytes, sha(tally.hashed))), walked;
      }
      var bad := CheckPage(cursor, page, next);
      if bad.Some? {
        return Err(bad.value), walked;
      }
      WalkedMore(walked, cursor, page, next, universe);
      var added := AddKeys(tally, page, walked);
      if added.Err? {
        if served.Some? {
          ServedPrefix(served.value, cursor, walked, page);
          TallyFails(served.value, |walked + page|);
        }
        return Err(added.error), walked;
      }
      if served.Some? {
        ServedPrefix(served.value, cursor, walked, page);
      }
      walked, tally, cursor := walked + page, added.value, next;
    }
  }

  ghost predicate Walked(walked: seq<BlobKey>, cursor: BlobKey, universe: set<BlobKey>) {
    && Ascending(Less, walked) && [] !in walked && cursor == CursorOf(walked)
    && Elements(walked) <= universe && |walked| <= |universe|
  }

  lemma WalkedNothing(served: Option<seq<BlobKey>>)
    ensures Ascending(Less, [])
    ensures TallyOf([]) == Ok(Tally(0, 0, []))
    ensures served.Some? ==> Rank(served.value, []) == 0
  {
  }

  lemma WalkedMore(walked: seq<BlobKey>, cursor: BlobKey, page: seq<BlobKey>, next: BlobKey, universe: set<BlobKey>)
    requires Walked(walked, cursor, universe) && PageOk(cursor, page, next) && forall k :: k in page ==> k in universe
    ensures Walked(walked + page, next, universe)
  {
    forall i, j | 0 <= i < |walked| && 0 <= j < |page| ensures Less(walked[i], page[j]) {
      if i < |walked| - 1 {
        LessTransitive(walked[i], cursor, page[j]);
      }
    }
    AscendingJoin(Less, walked, page);
    ElementsAppend(walked, page);
    ElementsCount(walked + page);
    Fewer(Elements(walked + page), universe);
  }

  lemma ServedPage(source: PageSource, ks: seq<BlobKey>, cursor: BlobKey)
    requires Serves(source, ks)
    ensures var (page, next) := source(cursor);
            && page == PageAt(ks, cursor, DefaultKeyPageSize) && next == CursorOf(page)
            && Ascending(Less, ks) && [] !in ks
            && (page == [] ==> ks[..Rank(ks, cursor)] == ks)
            && (page != [] ==> PageOk(cursor, page, next))
  {
    hide Rank, Less, PageAt;
    RankMeaning(ks, cursor);
    PageSlice(ks, cursor, DefaultKeyPageSize);
  }

  lemma ServedPrefix(ks: seq<BlobKey>, cursor: BlobKey, walked: seq<BlobKey>, page: seq<BlobKey>)
    requires Ascending(Less, ks) && [] !in ks && walked == ks[..Rank(ks, cursor)]
    requires page == PageAt(ks, cursor, DefaultKeyPageSize) && page != []
    ensures |walked + page| <= |ks| && walked + page == ks[..|walked + page|]
    ensures Rank(ks, CursorOf(page)) == |walked + page|
  {
    hide Rank, Less;
    PageSlice(ks, cursor, DefaultKeyPageSize);
    var e := Min(|ks|, Rank(ks, cursor) + DefaultKeyPageSize);
    assert ks[e - 1] in ks;
    RankOfKey(ks, e - 1);
  }
}
