/** Bounded, ordered pages of blob keys (storage/page.go, storage/memory.go). */
module Pager {
  import opened Orders
  import opened Bytes
  import opened Outcomes

  type BlobKey = seq<byte>

  const DefaultKeyPageSize := 256

  // ---- what a page is ----

  /** A key that comes after a cursor; the empty cursor is before every key. */
  predicate IsAfter(after: BlobKey, k: BlobKey) {
    after == [] || Less(after, k)
  }

  ghost function After(keys: set<BlobKey>, after: BlobKey): set<BlobKey> {
    set k | k in keys && IsAfter(after, k)
  }

  /** The limit smallest keys after the cursor, ascending. */
  ghost predicate IsPage(keys: set<BlobKey>, after: BlobKey, limit: nat, page: seq<BlobKey>) {
    && Ascending(Less, page) && |page| <= limit && Elements(page) <= After(keys, after)
    && forall k :: k in After(keys, after) && k !in page ==> |page| == limit && forall x :: x in page ==> Less(x, k)
  }

  /** The keys of a store in order. */
  ghost predicate IsIndex(keys: set<BlobKey>, ks: seq<BlobKey>) {
    Ascending(Less, ks) && Elements(ks) == keys
  }

  /** How many keys of an ascending list are not after the cursor. */
  function Rank(ks: seq<BlobKey>, after: BlobKey): (n: nat)
    ensures n <= |ks|
  {
    if ks == [] || after == [] then 0
    else if Less(after, ks[|ks| - 1]) then Rank(ks[..|ks| - 1], after)
    else |ks|
  }

  function PageAt(ks: seq<BlobKey>, after: BlobKey, limit: nat): seq<BlobKey> {
    var i := Rank(ks, after);
    if |ks| - i <= limit then ks[i..] else ks[i..i + limit]
  }

  lemma {:induction false} RankMeaning(ks: seq<BlobKey>, after: BlobKey)
    requires Ascending(Less, ks)
    ensures forall i :: 0 <= i < |ks| ==> (Rank(ks, after) <= i <==> IsAfter(after, ks[i]))
  {
    if ks != [] && after != [] {
      var last := |ks| - 1;
      if Less(after, ks[last]) {
        RankMeaning(ks[..last], after);
      } else {
        forall i | 0 <= i < last ensures !Less(after, ks[i]) {
          if Less(after, ks[i]) {
            LessTransitive(after, ks[i], ks[last]);
          }
        }
      }
    }
  }

  lemma RankUnique(ks: seq<BlobKey>, after: BlobKey, n: nat)
    requires Ascending(Less, ks) && n <= |ks|
    requires forall i :: 0 <= i < |ks| ==> (n <= i <==> IsAfter(after, ks[i]))
    ensures Rank(ks, after) == n
  {
    RankMeaning(ks, after);
    var r := Rank(ks, after);
    if r < |ks| {
      assert IsAfter(after, ks[r]);
    }
    if n < |ks| {
      assert IsAfter(after, ks[n]);
    }
  }

  /** A listed key used as cursor points just behind itself. */
  lemma RankOfKey(ks: seq<BlobKey>, j: nat)
    requires Ascending(Less, ks) && j < |ks| && ks[j] != []
    ensures Rank(ks, ks[j]) == j + 1
  {
    forall i | 0 <= i < |ks| ensures j + 1 <= i <==> IsAfter(ks[j], ks[i]) {
      if i == j {
        LessIrreflexive(ks[j]);
      } else if i < j && Less(ks[j], ks[i]) {
        LessTransitive(ks[i], ks[j], ks[i]);
        LessIrreflexive(ks[i]);
      }
    }
    RankUnique(ks, ks[j], j + 1);
  }

  lemma {:induction false} ElementsCount(s: seq<BlobKey>)
    requires Ascending(Less, s)
    ensures |Elements(s)| == |s|
  {
    ElementsEmpty(s);
    if s != [] {
      var init, last := s[..|s| - 1], s[|s| - 1];
      ElementsCount(init);
      LessIsStrictOrder();
      InitElements(Less, s);
      assert last in Elements(s);
    }
  }

  /** At most one list is the page after a cursor. */
  lemma PageUnique(keys: set<BlobKey>, after: BlobKey, limit: nat, p: seq<BlobKey>, q: seq<BlobKey>)
    requires IsPage(keys, after, limit, p) && IsPage(keys, after, limit, q)
    ensures p == q
  {
    PageWithin(keys, after, limit, p, q);
    PageWithin(keys, after, limit, q, p);
    LessIsStrictOrder();
    AscendingUnique(Less, p, q);
  }

  lemma PageWithin(keys: set<BlobKey>, after: BlobKey, limit: nat, p: seq<BlobKey>, q: seq<BlobKey>)
    requires IsPage(keys, after, limit, p) && IsPage(keys, after, limit, q)
    ensures Elements(p) <= Elements(q)
  {
    forall x | x in Elements(p) ensures x in Elements(q) {
      if x !in q {
        forall y | y in Elements(q) ensures y in Elements(p) {
          if y !in p {
            LessTransitive(x, y, x);
            LessIrreflexive(x);
          }
        }
        ElementsCount(p);
        ElementsCount(q);
        OneMore(Elements(q), Elements(p), x);
      }
    }
  }

  lemma Fewer(small: set<BlobKey>, large: set<BlobKey>)
    requires small <= large
    ensures |small| <= |large|
  {
    assert large == small + (large - small);
  }

  lemma OneMore(small: set<BlobKey>, large: set<BlobKey>, x: BlobKey)
    requires small + {x} <= large && x !in small
    ensures |small| < |large|
  {
    assert large == (small + {x}) + (large - small - {x});
  }

  /** The slice of the ordered index is the page. */
  lemma PageAtIsPage(keys: set<BlobKey>, ks: seq<BlobKey>, after: BlobKey, limit: nat)
    requires IsIndex(keys, ks)
    ensures IsPage(keys, after, limit, PageAt(ks, after, limit))
  {
    RankMeaning(ks, after);
    var i, page := Rank(ks, after), PageAt(ks, after, limit);
    forall m | i <= m < i + |page| ensures ks[m] in page {
      assert page[m - i] == ks[m];
    }
    forall k | k in After(keys, after) && k !in page ensures |page| == limit && forall x :: x in page ==> Less(x, k) {
      assert k in Elements(ks);
    }
  }

  // ---- insertKeyPage ----

  function Take(s: seq<BlobKey>, n: nat): seq<BlobKey> {
    if |s| <= n then s else s[..n]
  }

  function PageInsert(page: seq<BlobKey>, key: BlobKey, after: BlobKey, limit: nat): seq<BlobKey> {
    if !IsAfter(after, key) then page else Take(Insert(Less, page, key), limit)
  }

  /** insertKeyPage: binary search, shift, truncate. */
  method InsertKeyPage(page: seq<BlobKey>, key: BlobKey, after: BlobKey, limit: nat) returns (out: seq<BlobKey>)
    requires Ascending(Less, page) && |page| <= limit
    ensures out == PageInsert(page, key, after, limit)
  {
    if |after| > 0 && !Less(after, key) {
      return page;
    }
    var index := Search(page, key);
    InsertAt(page, key, index);
    if index < |page| && page[index] == key {
      return page;
    }
    if |page| >= limit && index == |page| {
      assert page == (page[..index] + [key] + page[index..])[..limit];
      return page;
    }
    out := page[..index] + [key] + page[index..];
    if |out| > limit {
      out := out[..limit];
    }
  }

  /** sort.Search for the first element not below key. */
  method Search(page: seq<BlobKey>, key: BlobKey) returns (index: nat)
    requires Ascending(Less, page)
    ensures index <= |page| && forall i :: 0 <= i < |page| ==> (i < index <==> Less(page[i], key))
  {
    var lo, hi := 0, |page|;
    while lo < hi
      invariant 0 <= lo <= hi <= |page|
      invariant forall i :: 0 <= i < lo ==> Less(page[i], key)
      invariant forall i :: hi <= i < |page| ==> !Less(page[i], key)
    {
      var mid := (lo + hi) / 2;
      if !Less(page[mid], key) {
        forall i | mid <= i < |page| ensures !Less(page[i], key) {
          if mid < i && Less(page[i], key) {
            LessTransitive(page[mid], page[i], key);
          }
        }
        hi := mid;
      } else {
        forall i | 0 <= i < mid ensures Less(page[i], key) {
          LessTransitive(page[i], page[mid], key);
        }
        lo := mid + 1;
      }
    }
    index := lo;
  }

  lemma InsertAt(page: seq<BlobKey>, key: BlobKey, index: nat)
    requires Ascending(Less, page) && index <= |page|
    requires forall i :: 0 <= i < |page| ==> (i < index <==> Less(page[i], key))
    ensures Insert(Less, page, key) ==
            if index < |page| && page[index] == key then page else page[..index] + [key] + page[index..]
  {
    LessIsStrictOrder();
    forall y | y in page ensures y == key || Less(key, y) || Less(y, key) {
      LessTotal(y, key);
    }
    InsertAscending(Less, page, key);
    if index < |page| && page[index] == key {
      AscendingUnique(Less, Insert(Less, page, key), page);
    } else {
      InsertedAscending(page, key, index);
      AscendingUnique(Less, Insert(Less, page, key), page[..index] + [key] + page[index..]);
    }
  }

  lemma InsertedAscending(page: seq<BlobKey>, key: BlobKey, index: nat)
    requires Ascending(Less, page) && index <= |page| && (index < |page| ==> page[index] != key)
    requires forall i :: 0 <= i < |page| ==> (i < index <==> Less(page[i], key))
    ensures Ascending(Less, page[..index] + [key] + page[index..])
    ensures Elements(page[..index] + [key] + page[index..]) == Elements(page) + {key}
  {
    hide Less;
    var low, high := page[..index], page[index..];
    assert page == low + high;
    BelowSuffix(page, key, index);
    assert Ascending(Less, low) && Ascending(Less, high);
    AscendingJoin(Less, low, [key]);
    AscendingJoin(Less, low + [key], high);
    ElementsAppend(low + [key], high);
    ElementsAppend(low, [key]);
    ElementsAppend(low, high);
  }

  lemma BelowSuffix(page: seq<BlobKey>, key: BlobKey, index: nat)
    requires Ascending(Less, page) && index <= |page| && (index < |page| ==> page[index] != key && !Less(page[index], key))
    ensures forall i :: index <= i < |page| ==> Less(key, page[i])
  {
    forall i | index <= i < |page| ensures Less(key, page[i]) {
      LessTotal(key, page[index]);
      if index < i {
        LessTransitive(key, page[index], page[i]);
      }
    }
  }

  /** Offering one more key keeps the page exact for the keys offered so far. */
  lemma PageStep(keys: set<BlobKey>, after: BlobKey, limit: nat, page: seq<BlobKey>, key: BlobKey)
    requires IsPage(keys, after, limit, page)
    ensures IsPage(keys + {key}, after, limit, PageInsert(page, key, after, limit))
  {
    var more := keys + {key};
    if !IsAfter(after, key) {
      assert After(more, after) == After(keys, after);
    } else {
      assert After(more, after) == After(keys, after) + {key};
      LessIsStrictOrder();
      forall y | y in page ensures y == key || Less(key, y) || Less(y, key) {
        LessTotal(y, key);
      }
      InsertAscending(Less, page, key);
      TakeStep(After(keys, after), limit, page, key, Insert(Less, page, key));
    }
  }

  lemma TakeStep(left: set<BlobKey>, limit: nat, page: seq<BlobKey>, key: BlobKey, full: seq<BlobKey>)
    requires Ascending(Less, page) && |page| <= limit && Elements(page) <= left
    requires forall k :: k in left && k !in page ==> |page| == limit && forall x :: x in page ==> Less(x, k)
    requires Ascending(Less, full) && Elements(full) == Elements(page) + {key}
    ensures var out := Take(full, limit);
            && Ascending(Less, out) && |out| <= limit && Elements(out) <= left + {key}
            && forall k :: k in left + {key} && k !in out ==> |out| == limit && forall x :: x in out ==> Less(x, k)
  {
    var out := Take(full, limit);
    ElementsCount(page);
    ElementsCount(full);
    Fewer(Elements(page), Elements(full));
    assert forall x :: x in out ==> x in full && x in Elements(full);
    forall m | 0 <= m < |out| ensures full[m] in out {
      assert out[m] == full[m];
    }
    forall k | k in left + {key} && k !in out ensures |out| == limit && forall x :: x in out ==> Less(x, k) {
      if k !in full {
        assert k !in Elements(full) && k !in Elements(page);
        TakeBelow(page, key, full, limit, k);
      }
    }
  }

  lemma TakeBelow(page: seq<BlobKey>, key: BlobKey, full: seq<BlobKey>, limit: nat, k: BlobKey)
    requires Ascending(Less, full) && Elements(full) == Elements(page) + {key}
    requires |page| == limit && limit <= |full| && (forall x :: x in page ==> Less(x, k))
    requires |full| == |page| ==> Elements(full) == Elements(page)
    ensures forall x :: x in Take(full, limit) ==> Less(x, k)
  {
    var out := Take(full, limit);
    forall i | 0 <= i < |out| ensures Less(out[i], k) {
      assert full[i] in Elements(full);
      if full[i] !in Elements(page) {
        var last := full[|full| - 1];
        assert last in Elements(full);
        assert i < |full| - 1 ==> Less(full[i], last) && last != full[i] by {
          LessIrreflexive(last);
        }
        LessTransitive(full[i], last, k);
      }
    }
  }

  // ---- the store ----

  function Remove(ks: seq<BlobKey>, k: BlobKey): seq<BlobKey> {
    if ks == [] then []
    else if ks[|ks| - 1] == k then ks[..|ks| - 1]
    else Remove(ks[..|ks| - 1], k) + [ks[|ks| - 1]]
  }

  lemma {:induction false} RemoveIndex(keys: set<BlobKey>, ks: seq<BlobKey>, k: BlobKey)
    requires IsIndex(keys, ks)
    ensures IsIndex(keys - {k}, Remove(ks, k))
  {
    if ks != [] {
      var init, last := ks[..|ks| - 1], ks[|ks| - 1];
      LessIsStrictOrder();
      InitElements(Less, ks);
      if last != k {
        RemoveIndex(Elements(init), init, k);
        var rest := Remove(init, k);
        forall i | 0 <= i < |rest| ensures Less(rest[i], last) {
          assert rest[i] in Elements(rest) && rest[i] in Elements(init);
        }
        AscendingJoin(Less, rest, [last]);
        ElementsAppend(rest, [last]);
      }
    }
  }

  lemma InsertIndex(keys: set<BlobKey>, ks: seq<BlobKey>, k: BlobKey)
    requires IsIndex(keys, ks)
    ensures IsIndex(keys + {k}, Insert(Less, ks, k))
  {
    LessIsStrictOrder();
    forall y | y in ks ensures y == k || Less(k, y) || Less(y, k) {
      LessTotal(y, k);
    }
    InsertAscending(Less, ks, k);
  }

  function PageLimit(limit: int): (n: nat)
    ensures n == if limit > 0 then limit else 256
  {
    if limit <= 0 then DefaultKeyPageSize else limit
  }

  class MemoryStore {
    var data: map<BlobKey, seq<byte>>
    // the ordered key index; absent in a zero-value store
    var keys: Option<seq<BlobKey>>

    ghost predicate Valid()
      reads this
    {
      [] !in data && (keys.Some? ==> IsIndex(data.Keys, keys.value))
    }

    constructor ()
      ensures Valid() && data == map[] && keys == Some([])
    {
      data, keys := map[], Some([]);
    }

    /** The zero value of the struct, without an index. */
    constructor Zero()
      ensures Valid() && data == map[] && keys.None?
    {
      data, keys := map[], None;
    }

    /** ensureKeyIndexLocked */
    method EnsureIndex()
      requires Valid()
      modifies this`keys
      ensures Valid() && keys.Some?
    {
      if keys.Some? {
        return;
      }
      var index: seq<BlobKey> := [];
      var rest := data.Keys;
      while rest != {}
        invariant rest <= data.Keys && IsIndex(data.Keys - rest, index)
      {
        var k :| k in rest;
        InsertIndex(data.Keys - rest, index, k);
        index := Insert(Less, index, k);
        rest := rest - {k};
        assert data.Keys - rest == data.Keys - (rest + {k}) + {k};
      }
      assert data.Keys - {} == data.Keys;
      keys := Some(index);
    }

    method Put(key: BlobKey, value: seq<byte>) returns (err: Option<Error>)
      requires Valid()
      modifies this
      ensures Valid() && err == (if key == [] then Some(KeyEmpty) else None)
      ensures data == if key == [] then old(data) else old(data)[key := value]
    {
      if key == [] {
        return Some(KeyEmpty);
      }
      EnsureIndex();
      if key !in data {
        InsertIndex(data.Keys, keys.value, key);
        keys := Some(Insert(Less, keys.value, key));
      }
      data := data[key := value];
      assert data.Keys == old(data).Keys + {key};
      err := None;
    }

    method Delete(key: BlobKey) returns (err: Option<Error>)
      requires Valid()
      modifies this
      ensures Valid() && err == (if key == [] then Some(KeyEmpty) else None)
      ensures data == old(data) - {key} && keys.Some? == old(keys.Some?)
    {
      if key == [] {
        return Some(KeyEmpty);
      }
      if key in data {
        data := data - {key};
        assert data.Keys == old(data).Keys - {key};
        if keys.Some? {
          RemoveIndex(old(data).Keys, keys.value, key);
          keys := Some(Remove(keys.value, key));
        }
      }
      err := None;
    }

    method ListKeys() returns (out: seq<BlobKey>)
      requires Valid()
      ensures IsIndex(data.Keys, out)
    {
      if keys.Some? {
        return keys.value;
      }
      out := [];
      var rest := data.Keys;
      while rest != {}
        invariant rest <= data.Keys && IsIndex(data.Keys - rest, out)
      {
        var k :| k in rest;
        InsertIndex(data.Keys - rest, out, k);
        out := Insert(Less, out, k);
        rest := rest - {k};
        assert data.Keys - rest == data.Keys - (rest + {k}) + {k};
      }
      assert data.Keys - {} == data.Keys;
    }

    /** Both forms, the index walk and the bounded scan, give the page; the cursor returned is its last key. */
    method ListKeyPage(after: BlobKey, limit: int) returns (page: seq<BlobKey>, next: BlobKey)
      requires Valid()
      ensures IsPage(data.Keys, after, PageLimit(limit), page)
      ensures next == if page == [] then [] else page[|page| - 1]
    {
      if keys.Some? {
        page := IndexPage(keys.value, after, PageLimit(limit));
        PageAtIsPage(data.Keys, keys.value, after, PageLimit(limit));
      } else {
        page := ScanPage(after, PageLimit(limit));
      }
      next := if page == [] then [] else page[|page| - 1];
    }

    /** The scan without an index, over the keys in any order. */
    method ScanPage(after: BlobKey, limit: nat) returns (page: seq<BlobKey>)
      ensures IsPage(data.Keys, after, limit, page)
    {
      page := [];
      var rest := data.Keys;
      while rest != {}
        invariant rest <= data.Keys && IsPage(data.Keys - rest, after, limit, page)
      {
        var k :| k in rest;
        PageStep(data.Keys - rest, after, limit, page, k);
        page := InsertKeyPage(page, k, after, limit);
        rest := rest - {k};
        assert data.Keys - rest == data.Keys - (rest + {k}) + {k};
      }
      assert data.Keys - {} == data.Keys;
    }
  }

  /** AscendGreaterOrEqual from the cursor, skipping the cursor itself, until the page is full. */
  method IndexPage(ks: seq<BlobKey>, after: BlobKey, limit: nat) returns (page: seq<BlobKey>)
    requires Ascending(Less, ks) && limit > 0
    ensures page == PageAt(ks, after, limit)
  {
    hide Rank, Less, Ascending;
    var i := Search(ks, after);
    ghost var start := Rank(ks, after);
    SearchRank(ks, after, i);
    page := [];
    while i < |ks| && |page| < limit
      invariant start - 1 <= i <= |ks| && |page| <= limit
      invariant if i < start then after != [] && ks[i] == after && page == [] else page == ks[start..i]
    {
      if |after| > 0 && ks[i] == after {
        i := i + 1;
        continue;
      }
      assert start <= i && ks[start..i] + [ks[i]] == ks[start..i + 1];
      page := page + [ks[i]];
      i := i + 1;
    }
  }

  lemma SearchRank(ks: seq<BlobKey>, after: BlobKey, index: nat)
    requires Ascending(Less, ks) && index <= |ks|
    requires forall i :: 0 <= i < |ks| ==> (i < index <==> Less(ks[i], after))
    ensures Rank(ks, after) == if index < |ks| && after != [] && ks[index] == after then index + 1 else index
    ensures forall i :: Rank(ks, after) <= i < |ks| && after != [] ==> ks[i] != after
  {
    RankMeaning(ks, after);
    LessIrreflexive(after);
    if index < |ks| && after != [] && ks[index] == after {
      RankOfKey(ks, index);
    } else {
      forall i | 0 <= i < |ks| ensures index <= i <==> IsAfter(after, ks[i]) {
        LessTotal(ks[i], after);
        if Less(ks[i], after) && Less(after, ks[i]) {
          LessTransitive(after, ks[i], after);
          LessIrreflexive(after);
        }
        if index < |ks| {
          LessTotal(ks[index], after);
        }
      }
      RankUnique(ks, after, index);
    }
  }

  // ---- walking a store page by page ----

  type positive = n: int | n > 0 witness 1

  /** What a client collects by following the returned cursor through pages of these sizes. */
  function Walk(ks: seq<BlobKey>, after: BlobKey, limits: seq<positive>): seq<BlobKey>
    decreases |limits|, 0
  {
    if limits == [] then [] else WalkOn(ks, PageAt(ks, after, limits[0]), limits[1..])
  }

  function WalkOn(ks: seq<BlobKey>, page: seq<BlobKey>, limits: seq<positive>): seq<BlobKey>
    decreases |limits|, 1
  {
    if page == [] then [] else page + Walk(ks, page[|page| - 1], limits)
  }

  function Total(limits: seq<positive>): nat {
    if limits == [] then 0 else limits[0] + Total(limits[1..])
  }

  function Min(a: int, b: int): int {
    if a <= b then a else b
  }

  /** Chained pages list the keys after the first cursor once each, in order, whatever the page sizes. */
  lemma {:induction false} WalkCovers(ks: seq<BlobKey>, after: BlobKey, limits: seq<positive>)
    requires Ascending(Less, ks) && [] !in ks
    ensures var i := Rank(ks, after); Walk(ks, after, limits) == ks[i..Min(|ks|, i + Total(limits))]
    decreases limits
  {
    hide Rank, Less, Ascending, PageAt, Walk, Total;
    WalkUnfolds(ks, after, limits);
    var i := Rank(ks, after);
    if limits != [] {
      PageSlice(ks, after, limits[0]);
      if i < |ks| {
        var e, rest := Min(|ks|, i + limits[0]), limits[1..];
        var stop := Min(|ks|, e + Total(rest));
        assert ks[e - 1] in ks;
        RankOfKey(ks, e - 1);
        WalkCovers(ks, ks[e - 1], rest);
        JoinSlices(ks, i, e, stop);
      }
    }
  }

  lemma WalkUnfolds(ks: seq<BlobKey>, after: BlobKey, limits: seq<positive>)
    ensures limits == [] ==> Walk(ks, after, limits) == [] && Total(limits) == 0
    ensures limits != [] ==> Walk(ks, after, limits) == WalkOn(ks, PageAt(ks, after, limits[0]), limits[1..])
    ensures limits != [] ==> Total(limits) == limits[0] + Total(limits[1..])
  {
    hide PageAt, WalkOn;
  }

  lemma PageSlice(ks: seq<BlobKey>, after: BlobKey, limit: nat)
    requires limit > 0
    ensures var i, page := Rank(ks, after), PageAt(ks, after, limit);
            var e := Min(|ks|, i + limit);
            && page == ks[i..e] && (page == [] <==> i == |ks|)
            && (page != [] ==> page[|page| - 1] == ks[e - 1])
  {
    hide Rank;
  }

  lemma JoinSlices(ks: seq<BlobKey>, i: nat, j: nat, k: nat)
    requires i <= j <= k <= |ks|
    ensures ks[i..j] + ks[j..k] == ks[i..k]
  {
  }
}
