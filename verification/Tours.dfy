/** Exchange after exchange: which keys a peer has been told of, over a whole tour of the inventory. */
module Tours {
  import opened Orders
  import opened Bytes
  import opened Outcomes
  import opened Pager
  import opened Summaries
  import opened Inventory

  // ---- one paged exchange ----

  /**
   * What an exchange at position i, with sent keys already charged, does: it advertises the next keys, ends
   * only at the end, keeps both budgets, and returns the last key, or the empty cursor when unfinished.
   */
  ghost predicate Advanced(e: InventoryEnv, b: Budget, ks: seq<BlobKey>, i: nat, sent: nat, bytes: nat, x: Exchange) {
    var j, total := i + |x.keys|, sent + |x.keys|;
    && j <= |ks| && x.keys == ks[i..j]
    && (x.complete ==> j == |ks| && x.cursor == CursorOf(ks[..j]))
    && (!x.complete ==>
          && total > 0 && (j == |ks| ==> KeysSpent(b, total))
          && (x.cursor == [] || x.cursor == CursorOf(ks[..j])))
    && (b.maxKeys > 0 && sent <= b.maxKeys ==> total <= b.maxKeys)
    && (x.keys == [] ==> x.bytes == bytes)
    && (x.keys != [] && OverBytes(b, x.bytes) ==> sent == 0 && |x.keys| == 1)
  }

  /** Sending stopped inside a page. */
  lemma PagePart(e: InventoryEnv, b: Budget, ks: seq<BlobKey>, i: nat, page: seq<BlobKey>, sent: nat, bytes: nat, r: Sent)
    requires i + |page| <= |ks| && page == ks[i..i + |page|] && |page| <= PageSize(e, b)
    requires r.stop < |page| && (b.maxKeys > 0 ==> sent + |page| <= b.maxKeys)
    requires (sent == 0 ==> r.stop > 0) && (r.stop == 0 ==> r.bytes == bytes)
    requires r.stop > 0 && OverBytes(b, r.bytes) ==> sent == 0 && r.stop == 1
    ensures Advanced(e, b, ks, i, sent, bytes, Part(page, r))
  {
    SliceOfRest(ks, i, 0, r.stop);
    assert page[..r.stop] == ks[i..i + r.stop];
  }

  /** A page sent whole is followed by the exchange from its last key. */
  lemma WholePage(e: InventoryEnv, b: Budget, ks: seq<BlobKey>, i: nat, page: seq<BlobKey>, sent: nat, bytes: nat, after: nat, x: Exchange)
    requires i + |page| <= |ks| && page == ks[i..i + |page|] && page != []
    requires OverBytes(b, after) ==> sent == 0 && |page| == 1
    requires b.maxKeys > 0 ==> sent + |page| <= b.maxKeys
    requires Advanced(e, b, ks, i + |page|, sent + |page|, after, x)
    ensures Advanced(e, b, ks, i, sent, bytes, x.(keys := page + x.keys))
  {
    JoinSlices(ks, i, i + |page|, i + |page| + |x.keys|);
  }

  /** Nothing is left to send: the key budget or the inventory is used up. */
  lemma LastPage(e: InventoryEnv, b: Budget, ks: seq<BlobKey>, cursor: BlobKey, sent: nat, bytes: nat)
    requires Ascending(Less, ks) && [] !in ks
    requires cursor == CursorOf(ks[..Rank(ks, cursor)]) && (KeysSpent(b, sent) || Rank(ks, cursor) == |ks|)
    ensures PagedFrom(e, b, ks, cursor, sent, bytes).Ok?
    ensures Advanced(e, b, ks, Rank(ks, cursor), sent, bytes, PagedFrom(e, b, ks, cursor, sent, bytes).value)
  {
    hide Rank, Less, Ascending;
    var i := Rank(ks, cursor);
    assert ks[i..i] == [];
    if !KeysSpent(b, sent) {
      PageSlice(ks, cursor, PageBound(e, b, sent));
    }
  }

  lemma PageCursor(ks: seq<BlobKey>, i: nat, page: seq<BlobKey>)
    requires i + |page| <= |ks| && page == ks[i..i + |page|] && page != []
    ensures CursorOf(page) == CursorOf(ks[..i + |page|])
  {
  }

  lemma {:induction false} PagedExchange(e: InventoryEnv, b: Budget, ks: seq<BlobKey>, cursor: BlobKey, sent: nat, bytes: nat)
    requires Ascending(Less, ks) && [] !in ks && PagedFrom(e, b, ks, cursor, sent, bytes).Ok?
    requires cursor == CursorOf(ks[..Rank(ks, cursor)])
    ensures Advanced(e, b, ks, Rank(ks, cursor), sent, bytes, PagedFrom(e, b, ks, cursor, sent, bytes).value)
    decreases |ks| - Rank(ks, cursor)
  {
    hide Rank, Less, Ascending, PageAt, SendFrom, Payload, Advanced;
    var i := Rank(ks, cursor);
    if KeysSpent(b, sent) {
      LastPage(e, b, ks, cursor, sent, bytes);
    } else {
      var limit := PageBound(e, b, sent);
      PageSlice(ks, cursor, limit);
      var page := PageAt(ks, cursor, limit);
      if page == [] {
        LastPage(e, b, ks, cursor, sent, bytes);
      } else {
        NextPage(ks, cursor, limit);
        PageCursor(ks, i, page);
        var r := SendFrom(e, b, page, 0, sent, bytes).value;
        SentBudget(e, b, page, 0, sent, bytes);
        if r.stop < |page| {
          PagePart(e, b, ks, i, page, sent, bytes, r);
        } else {
          PagedExchange(e, b, ks, CursorOf(page), sent + |page|, r.bytes);
          WholePage(e, b, ks, i, page, sent, bytes, r.bytes, PagedFrom(e, b, ks, CursorOf(page), sent + |page|, r.bytes).value);
        }
      }
    }
  }

  /** Nothing is refused when every key fits a frame of its own. */
  lemma {:induction false} PagedSucceeds(e: InventoryEnv, b: Budget, ks: seq<BlobKey>, cursor: BlobKey, sent: nat, bytes: nat)
    requires Ascending(Less, ks) && [] !in ks && forall k :: k in ks ==> Sendable(e, k)
    ensures PagedFrom(e, b, ks, cursor, sent, bytes).Ok?
    decreases |ks| - Rank(ks, cursor)
  {
    hide Rank, Less, Ascending, PageAt, SendFrom, Payload, Sendable;
    if !KeysSpent(b, sent) && PageAt(ks, cursor, PageBound(e, b, sent)) != [] {
      var page := PageAt(ks, cursor, PageBound(e, b, sent));
      NextPage(ks, cursor, PageBound(e, b, sent));
      SendSucceeds(e, b, page, 0, sent, bytes);
      PagedSucceeds(e, b, ks, CursorOf(page), sent + |page|, SendFrom(e, b, page, 0, sent, bytes).value.bytes);
    }
  }

  // ---- one list exchange ----

  /** What a list exchange at position i does; its cursor is always the last key it sent. */
  lemma ListAdvanced(e: InventoryEnv, b: Budget, ks: seq<BlobKey>, cursor: BlobKey)
    requires ListExchange(e, b, ks, cursor).Ok? && cursor == CursorOf(ks[..Rank(ks, cursor)])
    ensures var i, x := Rank(ks, cursor), ListExchange(e, b, ks, cursor).value;
            var j := i + |x.keys|;
            && j <= |ks| && x.keys == ks[i..j] && x.cursor == CursorOf(ks[..j])
            && (x.complete <==> j == |ks|) && (!x.complete ==> j > i)
            && (b.maxKeys > 0 ==> |x.keys| <= b.maxKeys) && (OverBytes(b, x.bytes) ==> |x.keys| == 1)
  {
    hide Rank, Payload, SendFrom;
    var i := Rank(ks, cursor);
    var rest := ks[i..];
    if rest == [] {
      assert ks[i..i] == [];
    } else {
      SentBudget(e, b, rest, 0, 0, 0);
      var n := SendFrom(e, b, rest, 0, 0, 0).value.stop;
      assert rest[..n] == ks[i..i + n];
    }
  }

  // ---- tours ----

  /** All keys advertised so far, the cursor kept for the next exchange, and whether the tour is over. */
  datatype Tour = Tour(sent: seq<BlobKey>, cursor: BlobKey, done: bool)

  type Step = BlobKey -> Result<Exchange>

  /** The scheduler's exchanges, n of them, from the empty cursor. */
  function TourOf(step: Step, n: nat): Result<Tour> {
    if n == 0 then Ok(Tour([], [], false))
    else match TourOf(step, n - 1)
      case Err(x) => Err(x)
      case Ok(t) =>
        if t.done then Ok(t)
        else match step(t.cursor)
          case Err(x) => Err(x)
          case Ok(x) => Ok(Tour(t.sent + x.keys, x.cursor, x.complete))
  }

  /** After its nth exchange the unfinished tour is back at the empty cursor. */
  predicate WasReset(step: Step, n: nat) {
    var t := TourOf(step, n);
    t.Ok? && !t.value.done && t.value.cursor == []
  }

  /** An exchange that starts behind the first i keys sends the next ones and returns its last key, or the empty cursor. */
  ghost predicate Proceeds(step: Step, ks: seq<BlobKey>, i: nat)
    requires i <= |ks|
  {
    var res := step(CursorOf(ks[..i]));
    res.Ok? && var x := res.value; var j := i + |x.keys|;
    && j <= |ks| && x.keys == ks[i..j] && (x.complete ==> j == |ks|)
    && (!x.complete ==> j > i && (x.cursor == [] || x.cursor == CursorOf(ks[..j])))
  }

  /** Without a reset, n exchanges have sent a prefix of at least n keys, each once and in order, or everything. */
  lemma {:induction false} TourProgress(step: Step, ks: seq<BlobKey>, n: nat)
    requires forall i :: 0 <= i <= |ks| ==> Proceeds(step, ks, i)
    requires forall r :: 1 <= r <= n ==> !WasReset(step, r)
    ensures TourOf(step, n).Ok?
    ensures var t := TourOf(step, n).value;
            && |t.sent| <= |ks| && t.sent == ks[..|t.sent|] && (t.done ==> t.sent == ks)
            && (!t.done ==> |t.sent| >= n && t.cursor == CursorOf(t.sent))
  {
    if n > 0 {
      TourProgress(step, ks, n - 1);
      var t := TourOf(step, n - 1).value;
      if !t.done {
        assert Proceeds(step, ks, |t.sent|);
        assert !WasReset(step, n);
        var x := step(t.cursor).value;
        assert ks[..|t.sent|] + ks[|t.sent|..|t.sent| + |x.keys|] == ks[..|t.sent| + |x.keys|];
        assert ks[..|ks|] == ks;
      }
    }
  }

  /** Exchanges depend on the cursor alone, so a reset makes the tour repeat itself. */
  lemma {:induction false} Cycle(step: Step, r: nat, n: nat)
    requires WasReset(step, r)
    ensures TourOf(step, r + n).Ok? <==> TourOf(step, n).Ok?
    ensures TourOf(step, n).Ok? ==>
              && TourOf(step, r + n).value.cursor == TourOf(step, n).value.cursor
              && TourOf(step, r + n).value.done == TourOf(step, n).value.done
  {
    if n > 0 {
      Cycle(step, r, n - 1);
      assert r + n - 1 == r + (n - 1);
    }
  }

  lemma {:induction false} DoneStays(step: Step, n: nat, m: nat)
    requires n <= m && TourOf(step, n).Ok? && TourOf(step, n).value.done
    ensures TourOf(step, m) == TourOf(step, n)
  {
    if n < m {
      DoneStays(step, n, m - 1);
    }
  }

  /** A tour that was reset once never finishes. */
  lemma {:induction false} ResetForever(step: Step, r: nat, n: nat)
    requires 0 < r && WasReset(step, r)
    ensures TourOf(step, n).Ok? ==> !TourOf(step, n).value.done
    decreases n
  {
    if n <= r {
      if TourOf(step, n).Ok? && TourOf(step, n).value.done {
        DoneStays(step, n, r);
      }
    } else {
      Cycle(step, r, n - r);
      ResetForever(step, r, n - r);
    }
  }

  /** A tour covers the whole inventory, each key once and in order, exactly when no exchange of it is reset. */
  lemma TourCovers(step: Step, ks: seq<BlobKey>)
    requires forall i :: 0 <= i <= |ks| ==> Proceeds(step, ks, i)
    ensures (exists n: nat :: TourOf(step, n).Ok? && TourOf(step, n).value.done) <==>
            forall r: nat :: 1 <= r ==> !WasReset(step, r)
    ensures (forall r :: 1 <= r <= |ks| + 1 ==> !WasReset(step, r)) ==>
              TourOf(step, |ks| + 1).Ok? && TourOf(step, |ks| + 1).value.done && TourOf(step, |ks| + 1).value.sent == ks
  {
    forall r: nat, n: nat | 1 <= r && WasReset(step, r) ensures !(TourOf(step, n).Ok? && TourOf(step, n).value.done) {
      ResetForever(step, r, n);
    }
    if forall r :: 1 <= r <= |ks| + 1 ==> !WasReset(step, r) {
      TourProgress(step, ks, |ks| + 1);
      assert TourOf(step, |ks| + 1).value.done;
    }
  }

  lemma RankOfPrefix(ks: seq<BlobKey>, i: nat)
    requires Ascending(Less, ks) && [] !in ks && i <= |ks|
    ensures Rank(ks, CursorOf(ks[..i])) == i
  {
    if i > 0 {
      assert ks[i - 1] in ks;
      RankOfKey(ks, i - 1);
    }
  }

  function ListStep(e: InventoryEnv, b: Budget, ks: seq<BlobKey>): Step {
    c => ListExchange(e, b, ks, c)
  }

  function PagedStep(e: InventoryEnv, b: Budget, ks: seq<BlobKey>): Step
    requires Ascending(Less, ks) && [] !in ks
  {
    c => PagedFrom(e, b, ks, c, 0, 0)
  }

  lemma ListProceeds(e: InventoryEnv, b: Budget, ks: seq<BlobKey>, i: nat)
    requires Ascending(Less, ks) && [] !in ks && i <= |ks| && forall k :: k in ks ==> Sendable(e, k)
    ensures Proceeds(ListStep(e, b, ks), ks, i)
    ensures var x := ListExchange(e, b, ks, CursorOf(ks[..i])).value;
            !x.complete ==> x.cursor != []
  {
    hide Rank, Less, Sendable, SendFrom;
    RankOfPrefix(ks, i);
    SendSucceeds(e, b, ks[i..], 0, 0, 0);
    ListAdvanced(e, b, ks, CursorOf(ks[..i]));
    var x := ListExchange(e, b, ks, CursorOf(ks[..i])).value;
    if |x.keys| > 0 {
      assert ks[i + |x.keys| - 1] in ks;
    }
  }

  lemma PagedProceeds(e: InventoryEnv, b: Budget, ks: seq<BlobKey>, i: nat)
    requires Ascending(Less, ks) && [] !in ks && i <= |ks| && forall k :: k in ks ==> Sendable(e, k)
    ensures Proceeds(PagedStep(e, b, ks), ks, i) && PagedFrom(e, b, ks, CursorOf(ks[..i]), 0, 0).Ok?
    ensures Advanced(e, b, ks, i, 0, 0, PagedFrom(e, b, ks, CursorOf(ks[..i]), 0, 0).value)
  {
    hide Rank, Less, Sendable, PagedFrom, Ascending;
    RankOfPrefix(ks, i);
    PagedSucceeds(e, b, ks, CursorOf(ks[..i]), 0, 0);
    PagedExchange(e, b, ks, CursorOf(ks[..i]), 0, 0);
  }

  /** Over a listing store a tour advertises every key once, in order, under any budgets, in at most one exchange a key. */
  lemma ListTourCovers(e: InventoryEnv, b: Budget, ks: seq<BlobKey>)
    requires Ascending(Less, ks) && [] !in ks && forall k :: k in ks ==> Sendable(e, k)
    ensures var t := TourOf(ListStep(e, b, ks), |ks| + 1); t.Ok? && t.value.done && t.value.sent == ks
  {
    hide ListExchange, Sendable, Ascending, Less;
    var step := ListStep(e, b, ks);
    forall i | 0 <= i <= |ks| ensures Proceeds(step, ks, i) {
      ListProceeds(e, b, ks, i);
    }
    ListNeverReset(e, b, ks, |ks| + 1);
    TourCovers(step, ks);
  }

  lemma {:induction false} ListNeverReset(e: InventoryEnv, b: Budget, ks: seq<BlobKey>, n: nat)
    requires Ascending(Less, ks) && [] !in ks && forall k :: k in ks ==> Sendable(e, k)
    requires forall i :: 0 <= i <= |ks| ==> Proceeds(ListStep(e, b, ks), ks, i)
    ensures forall r :: 1 <= r <= n ==> !WasReset(ListStep(e, b, ks), r)
  {
    hide ListExchange, Sendable, Ascending, Less, Proceeds;
    if n > 0 {
      ListNeverReset(e, b, ks, n - 1);
      TourProgress(ListStep(e, b, ks), ks, n - 1);
      var t := TourOf(ListStep(e, b, ks), n - 1).value;
      ListProceeds(e, b, ks, |t.sent|);
    }
  }

  // ---- exactly when a paged exchange is reset ----

  /** The keys of m whole pages. */
  function PageKeys(pageSize: nat, m: nat): nat {
    if m == 0 then 0 else PageKeys(pageSize, m - 1) + pageSize
  }

  /** The bytes the first m pages from position i charge, when each of them is full and is sent whole within the budgets. */
  function WholePages(e: InventoryEnv, b: Budget, ks: seq<BlobKey>, i: nat, m: nat): Option<nat> {
    if m == 0 then Some(0)
    else
      var sent := PageKeys(PageSize(e, b), m - 1);
      var end := i + sent + PageSize(e, b);
      match WholePages(e, b, ks, i, m - 1)
      case None => None
      case Some(bytes) =>
        if end > |ks| || KeysSpent(b, sent) || PageBound(e, b, sent) != PageSize(e, b) then None
        else match SendFrom(e, b, ks[i + sent..end], 0, sent, bytes)
          case Err(_) => None
          case Ok(r) => if r.stop == PageSize(e, b) then Some(r.bytes) else None
  }

  /**
   * The guard of the failing branch, on the inputs alone: m pages from position i are sent whole, a key is
   * left, the key budget is open, and with what those pages charge not even one more key fits the byte budget.
   */
  ghost predicate OutOfBytesAfter(e: InventoryEnv, b: Budget, ks: seq<BlobKey>, i: nat, m: nat) {
    var sent := PageKeys(PageSize(e, b), m);
    && m > 0 && i + sent < |ks| && !KeysSpent(b, sent) && WholePages(e, b, ks, i, m).Some?
    && var page := ks[i + sent..Min(|ks|, i + sent + PageBound(e, b, sent))];
       Chosen(e, b, page, 0, sent, WholePages(e, b, ks, i, m).value) == Ok(0)
  }

  ghost predicate OutOfBytes(e: InventoryEnv, b: Budget, ks: seq<BlobKey>, i: nat) {
    exists m: nat :: OutOfBytesAfter(e, b, ks, i, m)
  }

  /** A page sent whole leaves the rest to the exchange from its last key. */
  lemma PagedUnfolds(e: InventoryEnv, b: Budget, ks: seq<BlobKey>, j: nat, sent: nat, bytes: nat)
    requires Ascending(Less, ks) && [] !in ks && j < |ks| && !KeysSpent(b, sent)
    ensures var end := Min(|ks|, j + PageBound(e, b, sent));
            var page := ks[j..end];
            && page != [] && CursorOf(page) == CursorOf(ks[..end]) != []
            && PagedFrom(e, b, ks, CursorOf(ks[..j]), sent, bytes) ==
               match SendFrom(e, b, page, 0, sent, bytes)
               case Err(x) => Err(x)
               case Ok(r) =>
                 if r.stop < |page| then Ok(Part(page, r))
                 else Joined(page, PagedFrom(e, b, ks, CursorOf(ks[..end]), sent + |page|, r.bytes))
  {
    hide Rank, Less, Ascending, PageAt, SendFrom;
    RankOfPrefix(ks, j);
    var limit := PageBound(e, b, sent);
    PageSlice(ks, CursorOf(ks[..j]), limit);
    NextPage(ks, CursorOf(ks[..j]), limit);
    var end := Min(|ks|, j + limit);
    PageCursor(ks, j, ks[j..end]);
  }

  lemma LastWholePage(e: InventoryEnv, b: Budget, ks: seq<BlobKey>, i: nat, m: nat)
    requires m > 0 && WholePages(e, b, ks, i, m).Some?
    ensures WholePages(e, b, ks, i, m - 1).Some? && PageKeys(PageSize(e, b), m) == PageKeys(PageSize(e, b), m - 1) + PageSize(e, b)
    ensures var size, sent := PageSize(e, b), PageKeys(PageSize(e, b), m - 1);
            && i + sent + size <= |ks| && !KeysSpent(b, sent) && PageBound(e, b, sent) == size
            && var res := SendFrom(e, b, ks[i + sent..i + sent + size], 0, sent, WholePages(e, b, ks, i, m - 1).value);
            res.Ok? && res.value.stop == size && WholePages(e, b, ks, i, m) == Some(res.value.bytes)
  {
    hide SendFrom, PageSize, PageBound;
  }

  lemma OneWholePage(e: InventoryEnv, b: Budget, ks: seq<BlobKey>, j: nat, sent: nat, bytes: nat)
    requires Ascending(Less, ks) && [] !in ks && j + PageSize(e, b) <= |ks| && !KeysSpent(b, sent)
    requires PageBound(e, b, sent) == PageSize(e, b)
    requires var res := SendFrom(e, b, ks[j..j + PageSize(e, b)], 0, sent, bytes); res.Ok? && res.value.stop == PageSize(e, b)
    ensures var end := j + PageSize(e, b);
            PagedFrom(e, b, ks, CursorOf(ks[..j]), sent, bytes) ==
            Joined(ks[j..end], PagedFrom(e, b, ks, CursorOf(ks[..end]), sent + PageSize(e, b),
                                         SendFrom(e, b, ks[j..end], 0, sent, bytes).value.bytes))
  {
    hide Less, Ascending, SendFrom, PagedFrom, PageSize, PageBound;
    PagedUnfolds(e, b, ks, j, sent, bytes);
  }

  /** The first m pages sent whole, the exchange goes on behind them. */
  lemma {:induction false} AfterWholePages(e: InventoryEnv, b: Budget, ks: seq<BlobKey>, i: nat, m: nat)
    requires Ascending(Less, ks) && [] !in ks && i <= |ks| && WholePages(e, b, ks, i, m).Some?
    ensures var j := i + PageKeys(PageSize(e, b), m);
            && j <= |ks|
            && PagedFrom(e, b, ks, CursorOf(ks[..i]), 0, 0) ==
               Joined(ks[i..j], PagedFrom(e, b, ks, CursorOf(ks[..j]), j - i, WholePages(e, b, ks, i, m).value))
  {
    hide Less, Ascending, SendFrom, PagedFrom, WholePages, PageSize, PageBound, Joined, CursorOf, KeysSpent;
    if m == 0 {
      assert ks[i..i] == [] && WholePages(e, b, ks, i, 0) == Some(0) by {
        NoPages(e, b, ks, i);
      }
      JoinNothing(PagedFrom(e, b, ks, CursorOf(ks[..i]), 0, 0));
    } else {
      LastWholePage(e, b, ks, i, m);
      AfterWholePages(e, b, ks, i, m - 1);
      var sent := PageKeys(PageSize(e, b), m - 1);
      var j, bytes := i + sent, WholePages(e, b, ks, i, m - 1).value;
      OneWholePage(e, b, ks, j, sent, bytes);
      var end := j + PageSize(e, b);
      JoinMore(ks[i..j], ks[j..end], PagedFrom(e, b, ks, CursorOf(ks[..end]), end - i, WholePages(e, b, ks, i, m).value));
      JoinSlices(ks, i, j, end);
    }
  }

  lemma NoPages(e: InventoryEnv, b: Budget, ks: seq<BlobKey>, i: nat)
    ensures WholePages(e, b, ks, i, 0) == Some(0)
  {
  }

  /** Out of bytes: the exchange advertises the whole pages and returns the empty cursor. */
  lemma OutOfBytesResets(e: InventoryEnv, b: Budget, ks: seq<BlobKey>, i: nat, m: nat)
    requires Ascending(Less, ks) && [] !in ks && i <= |ks| && OutOfBytesAfter(e, b, ks, i, m)
    ensures var j := i + PageKeys(PageSize(e, b), m);
            && j < |ks|
            && PagedFrom(e, b, ks, CursorOf(ks[..i]), 0, 0) ==
               Ok(Exchange(ks[i..j], WholePages(e, b, ks, i, m).value, [], false))
  {
    hide Less, Ascending, PagedFrom, Chosen, WholePages;
    AfterWholePages(e, b, ks, i, m);
    var sent := PageKeys(PageSize(e, b), m);
    var j, bytes := i + sent, WholePages(e, b, ks, i, m).value;
    PagedUnfolds(e, b, ks, j, sent, bytes);
    var page := ks[j..Min(|ks|, j + PageBound(e, b, sent))];
    assert SendFrom(e, b, page, 0, sent, bytes) == Ok(Sent(0, bytes, []));
    assert ks[i..j] + [] == ks[i..j];
  }

  lemma StopAtStart(e: InventoryEnv, b: Budget, keys: seq<BlobKey>, sent: nat, bytes: nat)
    requires keys != [] && !KeysSpent(b, sent) && SendFrom(e, b, keys, 0, sent, bytes).Ok?
    ensures SendFrom(e, b, keys, 0, sent, bytes).value.stop == 0 ==> sent > 0 && Chosen(e, b, keys, 0, sent, bytes) == Ok(0)
  {
    hide Payload, Chosen;
    ChosenMeaning(e, b, keys, 0, sent, bytes);
    var n := Chosen(e, b, keys, 0, sent, bytes).value;
    if n > 0 {
      SentBudget(e, b, keys, n, sent + n, bytes + |Payload(e, keys[0..n]).value|);
    }
  }

  lemma PartCursor(ks: seq<BlobKey>, page: seq<BlobKey>, r: Sent)
    requires [] !in ks && r.stop < |page| && forall k :: k in page ==> k in ks
    ensures Part(page, r).cursor == [] <==> r.stop == 0
  {
    if r.stop > 0 {
      assert page[r.stop - 1] in page;
    }
  }

  /** The exchange behind m whole pages, with a short page or none left, does not return the empty cursor. */
  lemma ShortPage(e: InventoryEnv, b: Budget, ks: seq<BlobKey>, j: nat, sent: nat, bytes: nat)
    requires Ascending(Less, ks) && [] !in ks && 0 < j <= |ks| && (KeysSpent(b, sent) || j == |ks|)
    ensures var res := PagedFrom(e, b, ks, CursorOf(ks[..j]), sent, bytes);
            res.Ok? && res.value.cursor == CursorOf(ks[..j]) != []
  {
    hide Less, Ascending, Rank;
    RankOfPrefix(ks, j);
    assert ks[j - 1] in ks;
    if !KeysSpent(b, sent) {
      PageSlice(ks, CursorOf(ks[..j]), PageBound(e, b, sent));
    }
  }

  /** Back at the empty cursor without being done. */
  predicate Wiped(res: Result<Exchange>) {
    res.Ok? && !res.value.complete && res.value.cursor == []
  }

  lemma JoinedWiped(sent: seq<BlobKey>, res: Result<Exchange>)
    ensures Wiped(Joined(sent, res)) <==> Wiped(res)
  {
  }

  /** An exchange that ends at the empty cursor behind m whole pages ran out of bytes on a page boundary. */
  lemma OneMoreWhole(e: InventoryEnv, b: Budget, ks: seq<BlobKey>, i: nat, m: nat, r: Sent)
    requires WholePages(e, b, ks, i, m).Some?
    requires var sent, size := PageKeys(PageSize(e, b), m), PageSize(e, b);
             && i + sent + size <= |ks| && !KeysSpent(b, sent) && PageBound(e, b, sent) == size && r.stop == size
             && SendFrom(e, b, ks[i + sent..i + sent + size], 0, sent, WholePages(e, b, ks, i, m).value) == Ok(r)
    ensures WholePages(e, b, ks, i, m + 1) == Some(r.bytes)
  {
    hide SendFrom, PageKeys, KeysSpent, PageBound;
  }

  lemma {:induction false} WipedRanOut(e: InventoryEnv, b: Budget, ks: seq<BlobKey>, i: nat, m: nat)
    requires Ascending(Less, ks) && [] !in ks && i + PageKeys(PageSize(e, b), m) <= |ks| && WholePages(e, b, ks, i, m).Some?
    requires var j := i + PageKeys(PageSize(e, b), m);
             Wiped(PagedFrom(e, b, ks, CursorOf(ks[..j]), j - i, WholePages(e, b, ks, i, m).value))
    ensures OutOfBytes(e, b, ks, i)
    decreases |ks| - PageKeys(PageSize(e, b), m)
  {
    hide Less, Ascending, SendFrom, PagedFrom, Chosen, Payload, WholePages;
    var size, sent, bytes := PageSize(e, b), PageKeys(PageSize(e, b), m), WholePages(e, b, ks, i, m).value;
    var j := i + sent;
    if KeysSpent(b, sent) {
      ShortPage(e, b, ks, j, sent, bytes);
    } else if j == |ks| {
      EndComplete(e, b, ks, sent, bytes);
    } else {
      PagedUnfolds(e, b, ks, j, sent, bytes);
      var end := Min(|ks|, j + PageBound(e, b, sent));
      var page := ks[j..end];
      var r := SendFrom(e, b, page, 0, sent, bytes).value;
      SentBudget(e, b, page, 0, sent, bytes);
      if r.stop < |page| {
        PartCursor(ks, page, r);
        StopAtStart(e, b, page, sent, bytes);
        assert OutOfBytesAfter(e, b, ks, i, m);
      } else {
        JoinedWiped(page, PagedFrom(e, b, ks, CursorOf(ks[..end]), sent + |page|, r.bytes));
        if |page| == size {
          OneMoreWhole(e, b, ks, i, m, r);
          WipedRanOut(e, b, ks, i, m + 1);
        } else {
          ShortPage(e, b, ks, end, sent + |page|, r.bytes);
        }
      }
    }
  }

  lemma EndComplete(e: InventoryEnv, b: Budget, ks: seq<BlobKey>, sent: nat, bytes: nat)
    requires Ascending(Less, ks) && [] !in ks && !KeysSpent(b, sent)
    ensures !Wiped(PagedFrom(e, b, ks, CursorOf(ks[..|ks|]), sent, bytes))
  {
    hide Less, Ascending, Rank;
    RankOfPrefix(ks, |ks|);
    PageSlice(ks, CursorOf(ks[..|ks|]), PageBound(e, b, sent));
  }

  /**
   * A paged exchange from behind the first i keys ends unfinished at the empty cursor exactly when some number
   * of pages is sent whole and not even one more key then fits the byte budget.
   */
  lemma PagedReset(e: InventoryEnv, b: Budget, ks: seq<BlobKey>, i: nat)
    requires Ascending(Less, ks) && [] !in ks && i <= |ks|
    ensures Wiped(PagedFrom(e, b, ks, CursorOf(ks[..i]), 0, 0)) <==> OutOfBytes(e, b, ks, i)
  {
    hide Less, Ascending, PagedFrom, OutOfBytesAfter;
    if OutOfBytes(e, b, ks, i) {
      var m: nat :| OutOfBytesAfter(e, b, ks, i, m);
      OutOfBytesResets(e, b, ks, i, m);
    }
    if Wiped(PagedFrom(e, b, ks, CursorOf(ks[..i]), 0, 0)) {
      NoPages(e, b, ks, i);
      WipedRanOut(e, b, ks, i, 0);
    }
  }

  // ---- paged tours ----

  /** Where the kth exchange of a tour starts as long as none is reset. */
  ghost function Position(e: InventoryEnv, b: Budget, ks: seq<BlobKey>, k: nat): nat
    requires Ascending(Less, ks) && [] !in ks
  {
    if k == 0 then 0
    else
      var i := Min(|ks|, Position(e, b, ks, k - 1));
      var res := PagedFrom(e, b, ks, CursorOf(ks[..i]), 0, 0);
      i + (if res.Ok? then |res.value.keys| else 0)
  }

  /** No exchange of the tour starts where it would run out of bytes on a page boundary. */
  ghost predicate NeverOut(e: InventoryEnv, b: Budget, ks: seq<BlobKey>)
    requires Ascending(Less, ks) && [] !in ks
  {
    forall k: nat :: !OutOfBytes(e, b, ks, Position(e, b, ks, k))
  }

  lemma PagedSteps(e: InventoryEnv, b: Budget, ks: seq<BlobKey>)
    requires Ascending(Less, ks) && [] !in ks && forall k :: k in ks ==> Sendable(e, k)
    ensures forall i :: 0 <= i <= |ks| ==> Proceeds(PagedStep(e, b, ks), ks, i)
  {
    hide PagedFrom, Sendable, Ascending, Less, Proceeds;
    forall i | 0 <= i <= |ks| ensures Proceeds(PagedStep(e, b, ks), ks, i) {
      PagedProceeds(e, b, ks, i);
    }
  }

  /** While no exchange has been reset, the tour is where Position says, and its next exchange is reset exactly there. */
  lemma {:induction false} TourAt(e: InventoryEnv, b: Budget, ks: seq<BlobKey>, k: nat)
    requires Ascending(Less, ks) && [] !in ks && forall x :: x in ks ==> Sendable(e, x)
    requires forall r :: 1 <= r <= k ==> !WasReset(PagedStep(e, b, ks), r)
    ensures TourOf(PagedStep(e, b, ks), k).Ok? && Position(e, b, ks, k) == |TourOf(PagedStep(e, b, ks), k).value.sent|
    ensures WasReset(PagedStep(e, b, ks), k + 1) <==> OutOfBytes(e, b, ks, Position(e, b, ks, k))
  {
    hide PagedFrom, Sendable, Ascending, Less, Proceeds, OutOfBytes, TourOf, Position, WasReset, PagedStep;
    var step := PagedStep(e, b, ks);
    PagedSteps(e, b, ks);
    TourProgress(step, ks, k);
    if k == 0 {
      TourStarts(e, b, ks);
    } else {
      TourAt(e, b, ks, k - 1);
      TourProgress(step, ks, k - 1);
      PositionStep(e, b, ks, TourOf(step, k - 1).value, k);
    }
    NextReset(e, b, ks, k);
  }

  lemma TourStarts(e: InventoryEnv, b: Budget, ks: seq<BlobKey>)
    requires Ascending(Less, ks) && [] !in ks
    ensures Position(e, b, ks, 0) == 0 && TourOf(PagedStep(e, b, ks), 0) == Ok(Tour([], [], false))
  {
  }

  lemma NextReset(e: InventoryEnv, b: Budget, ks: seq<BlobKey>, k: nat)
    requires Ascending(Less, ks) && [] !in ks && TourOf(PagedStep(e, b, ks), k).Ok?
    requires var t := TourOf(PagedStep(e, b, ks), k).value;
             && |t.sent| <= |ks| && t.sent == ks[..|t.sent|] && (t.done ==> t.sent == ks)
             && (!t.done ==> t.cursor == CursorOf(t.sent))
    ensures WasReset(PagedStep(e, b, ks), k + 1) <==> OutOfBytes(e, b, ks, |TourOf(PagedStep(e, b, ks), k).value.sent|)
  {
    hide PagedFrom, Ascending, Less, OutOfBytes;
    var t := TourOf(PagedStep(e, b, ks), k).value;
    if t.done {
      EndNotOut(e, b, ks);
    } else {
      PagedReset(e, b, ks, |t.sent|);
    }
  }

  lemma PositionStep(e: InventoryEnv, b: Budget, ks: seq<BlobKey>, t: Tour, k: nat)
    requires Ascending(Less, ks) && [] !in ks && k > 0 && forall x :: x in ks ==> Sendable(e, x)
    requires TourOf(PagedStep(e, b, ks), k - 1) == Ok(t) && Position(e, b, ks, k - 1) == |t.sent| <= |ks|
    requires t.sent == ks[..|t.sent|] && (t.done ==> t.sent == ks) && (!t.done ==> t.cursor == CursorOf(t.sent))
    requires TourOf(PagedStep(e, b, ks), k).Ok?
    ensures Position(e, b, ks, k) == |TourOf(PagedStep(e, b, ks), k).value.sent|
  {
    hide PagedFrom, Sendable, Ascending, Less;
    if t.done {
      assert ks[..|ks|] == ks;
      NothingLeft(e, b, ks);
    }
  }

  lemma NothingLeft(e: InventoryEnv, b: Budget, ks: seq<BlobKey>)
    requires Ascending(Less, ks) && [] !in ks && forall x :: x in ks ==> Sendable(e, x)
    ensures var res := PagedFrom(e, b, ks, CursorOf(ks[..|ks|]), 0, 0); res.Ok? && res.value.keys == []
  {
    hide Sendable, Ascending, Less, Proceeds;
    PagedProceeds(e, b, ks, |ks|);
  }

  lemma EndNotOut(e: InventoryEnv, b: Budget, ks: seq<BlobKey>)
    ensures !OutOfBytes(e, b, ks, |ks|)
  {
  }

  /**
   * Over a paging store a tour finishes exactly when none of its exchanges starts where it would run out of
   * bytes on a page boundary; it then advertises every key once and in order, in at most one exchange a key.
   */
  lemma PagedTourCovers(e: InventoryEnv, b: Budget, ks: seq<BlobKey>)
    requires Ascending(Less, ks) && [] !in ks && forall k :: k in ks ==> Sendable(e, k)
    ensures var step := PagedStep(e, b, ks);
            && ((exists n: nat :: TourOf(step, n).Ok? && TourOf(step, n).value.done) <==> NeverOut(e, b, ks))
            && (NeverOut(e, b, ks) ==>
                  TourOf(step, |ks| + 1).Ok? && TourOf(step, |ks| + 1).value.done && TourOf(step, |ks| + 1).value.sent == ks)
  {
    hide PagedFrom, Sendable, Ascending, Less, Proceeds, OutOfBytes;
    var step := PagedStep(e, b, ks);
    PagedSteps(e, b, ks);
    TourCovers(step, ks);
    if NeverOut(e, b, ks) {
      forall r: nat | 1 <= r ensures !WasReset(step, r) {
        NeverOutNeverReset(e, b, ks, r);
      }
    }
    if forall r: nat :: 1 <= r ==> !WasReset(step, r) {
      forall k: nat ensures !OutOfBytes(e, b, ks, Position(e, b, ks, k)) {
        TourAt(e, b, ks, k);
      }
    }
  }

  lemma {:induction false} NeverOutNeverReset(e: InventoryEnv, b: Budget, ks: seq<BlobKey>, n: nat)
    requires Ascending(Less, ks) && [] !in ks && NeverOut(e, b, ks) && forall k :: k in ks ==> Sendable(e, k)
    ensures forall r :: 1 <= r <= n ==> !WasReset(PagedStep(e, b, ks), r)
  {
    hide Sendable, Ascending, Less, OutOfBytes, WasReset, Position, PagedFrom, TourOf;
    if n > 0 {
      NeverOutNeverReset(e, b, ks, n - 1);
      TourAt(e, b, ks, n - 1);
    }
  }

  /** Budgets and inventories under which no paged exchange can run out of bytes on a page boundary. */
  predicate Safe(e: InventoryEnv, b: Budget, size: nat) {
    b.maxBytes <= 0 || 0 < b.maxKeys <= e.BatchSize() || size <= e.BatchSize()
  }

  lemma {:induction false} PageKeysLeast(pageSize: nat, m: nat)
    requires m > 0
    ensures PageKeys(pageSize, m) >= pageSize
  {
    if m > 1 {
      PageKeysLeast(pageSize, m - 1);
    }
  }

  lemma SafeNotOut(e: InventoryEnv, b: Budget, ks: seq<BlobKey>, i: nat)
    requires Safe(e, b, |ks|)
    ensures !OutOfBytes(e, b, ks, i)
  {
    hide OutOfBytesAfter, Safe;
    forall m: nat ensures !OutOfBytesAfter(e, b, ks, i, m) {
      SafeAfter(e, b, ks, i, m);
    }
  }

  lemma SafeAfter(e: InventoryEnv, b: Budget, ks: seq<BlobKey>, i: nat, m: nat)
    requires Safe(e, b, |ks|)
    ensures !OutOfBytesAfter(e, b, ks, i, m)
  {
    hide WholePages, PageKeys, Chosen;
    if m > 0 {
      PageKeysLeast(PageSize(e, b), m);
      var sent := PageKeys(PageSize(e, b), m);
      if i + sent < |ks| && !KeysSpent(b, sent) && WholePages(e, b, ks, i, m).Some? {
        var page := ks[i + sent..Min(|ks|, i + sent + PageBound(e, b, sent))];
        ChosenMeaning(e, b, page, 0, sent, WholePages(e, b, ks, i, m).value);
      }
    }
  }

  /** With no byte budget, or at most one page to send, a paged tour advertises every key once and in order. */
  lemma SafePagedTour(e: InventoryEnv, b: Budget, ks: seq<BlobKey>)
    requires Ascending(Less, ks) && [] !in ks && Safe(e, b, |ks|) && forall k :: k in ks ==> Sendable(e, k)
    ensures var t := TourOf(PagedStep(e, b, ks), |ks| + 1); t.Ok? && t.value.done && t.value.sent == ks
  {
    hide PagedFrom, Sendable, Ascending, Less, Safe, OutOfBytes;
    forall k: nat ensures !OutOfBytes(e, b, ks, Position(e, b, ks, k)) {
      SafeNotOut(e, b, ks, Position(e, b, ks, k));
    }
    PagedTourCovers(e, b, ks);
  }

  // ---- inventories that are never fully advertised ----

  /** A byte budget that covers what an unlimited exchange of these keys charges changes nothing. */
  lemma {:induction false} BudgetUnused(e: InventoryEnv, max: nat, keys: seq<BlobKey>, start: nat, sent: nat, bytes: nat)
    requires start <= |keys| && SendFrom(e, Budget(0, 0), keys, start, sent, bytes).Ok?
    requires SendFrom(e, Budget(0, 0), keys, start, sent, bytes).value.bytes <= max
    ensures SendFrom(e, Budget(max, 0), keys, start, sent, bytes) == SendFrom(e, Budget(0, 0), keys, start, sent, bytes)
    decreases |keys| - start
  {
    hide Payload, Chosen;
    if start < |keys| {
      ChosenMeaning(e, Budget(0, 0), keys, start, sent, bytes);
      var n := Chosen(e, Budget(0, 0), keys, start, sent, bytes).value;
      var after := bytes + |Payload(e, keys[start..start + n]).value|;
      SentFrames(e, Budget(0, 0), keys, start + n, sent + n, after);
      ChosenUnused(e, max, keys, start, sent, bytes);
      BudgetUnused(e, max, keys, start + n, sent + n, after);
    }
  }

  lemma ChosenUnused(e: InventoryEnv, max: nat, keys: seq<BlobKey>, start: nat, sent: nat, bytes: nat)
    requires start < |keys| && Chosen(e, Budget(0, 0), keys, start, sent, bytes).Ok?
    requires var n := Chosen(e, Budget(0, 0), keys, start, sent, bytes).value;
             0 < n && start + n <= |keys| && Payload(e, keys[start..start + n]).Ok?
             && bytes + |Payload(e, keys[start..start + n]).value| <= max
    ensures Chosen(e, Budget(max, 0), keys, start, sent, bytes) == Chosen(e, Budget(0, 0), keys, start, sent, bytes)
  {
    hide Payload, Fit;
    FitUnused(e, max, keys, start, FirstSize(e, Budget(0, 0), |keys| - start, sent), sent, bytes);
  }

  lemma {:induction false} FitUnused(e: InventoryEnv, max: nat, keys: seq<BlobKey>, start: nat, n: nat, sent: nat, bytes: nat)
    requires 0 < n && start + n <= |keys| && Fit(e, Budget(0, 0), keys, start, n, sent, bytes).Ok?
    requires var k := Fit(e, Budget(0, 0), keys, start, n, sent, bytes).value;
             0 < k && start + k <= |keys| && Payload(e, keys[start..start + k]).Ok?
             && bytes + |Payload(e, keys[start..start + k]).value| <= max
    ensures Fit(e, Budget(max, 0), keys, start, n, sent, bytes) == Fit(e, Budget(0, 0), keys, start, n, sent, bytes)
    decreases n
  {
    hide Payload;
    if n > 1 && |Payload(e, keys[start..start + n]).value| > e.MaxPayload() {
      FitUnused(e, max, keys, start, n / 2, sent, bytes);
    }
  }

  /** With the byte budget used up, a key that is not the first of the exchange does not fit. */
  lemma {:induction false} NothingFits(e: InventoryEnv, max: nat, keys: seq<BlobKey>, n: nat, sent: nat)
    requires 0 < n <= |keys| && n <= e.BatchSize() && sent > 0 && max > 0
    requires (forall k :: k in keys ==> Sendable(e, k)) && forall s :: |e.encode(s)| > 0
    ensures Fit(e, Budget(max, 0), keys, 0, n, sent, max) == Ok(0)
    decreases n
  {
    SendableKeys(e, keys[0..n]);
    if n == 1 {
      assert keys[0] in keys && keys[0..1] == [keys[0]];
    } else {
      NothingFits(e, max, keys, n / 2, sent);
    }
  }

  /** What the first page of an inventory charges when nothing limits it. */
  function FirstPageCost(e: InventoryEnv, ks: seq<BlobKey>): nat
    requires |ks| > e.BatchSize()
  {
    var res := SendFrom(e, Budget(0, 0), ks[..e.BatchSize()], 0, 0, 0);
    if res.Ok? then res.value.bytes else 0
  }

  lemma FirstPage(e: InventoryEnv, ks: seq<BlobKey>)
    requires |ks| > e.BatchSize() && (forall k :: k in ks ==> Sendable(e, k)) && forall s :: |e.encode(s)| > 0
    ensures var cost, b := FirstPageCost(e, ks), Budget(FirstPageCost(e, ks), 0);
            cost > 0 && PageSize(e, b) == e.BatchSize() && WholePages(e, b, ks, 0, 1) == Some(cost)
  {
    hide Payload;
    var page := ks[..e.BatchSize()];
    SendSucceeds(e, Budget(0, 0), page, 0, 0, 0);
    SentBudget(e, Budget(0, 0), page, 0, 0, 0);
    FirstFrameCosts(e, page);
    BudgetUnused(e, FirstPageCost(e, ks), page, 0, 0, 0);
    assert PageKeys(e.BatchSize(), 0) == 0 && ks[0..e.BatchSize()] == page;
    NoPages(e, Budget(FirstPageCost(e, ks), 0), ks, 0);
  }

  lemma FirstFrameCosts(e: InventoryEnv, keys: seq<BlobKey>)
    requires keys != [] && SendFrom(e, Budget(0, 0), keys, 0, 0, 0).Ok? && forall s :: |e.encode(s)| > 0
    ensures SendFrom(e, Budget(0, 0), keys, 0, 0, 0).value.bytes > 0
  {
    ChosenMeaning(e, Budget(0, 0), keys, 0, 0, 0);
    var n := Chosen(e, Budget(0, 0), keys, 0, 0, 0).value;
    SentFrames(e, Budget(0, 0), keys, n, n, |Payload(e, keys[0..n]).value|);
  }

  /**
   * Take any encoder, any inventory longer than a page, and the byte budget its first page costs. Every
   * exchange is reset after that page: the tour never fails and never ends, and no key beyond the first page
   * is ever advertised.
   */
  lemma {:induction false} StuckTour(e: InventoryEnv, ks: seq<BlobKey>, n: nat)
    requires Ascending(Less, ks) && [] !in ks && |ks| > e.BatchSize()
    requires (forall k :: k in ks ==> Sendable(e, k)) && forall s :: |e.encode(s)| > 0
    ensures var t := TourOf(PagedStep(e, Budget(FirstPageCost(e, ks), 0), ks), n);
            && t.Ok? && !t.value.done && t.value.cursor == []
            && forall j :: e.BatchSize() <= j < |ks| ==> ks[j] !in t.value.sent
  {
    hide FirstPageCost, PagedFrom, Sendable, Less;
    if n > 0 {
      StuckTour(e, ks, n - 1);
      StuckExchange(e, ks);
      DistinctKeys(ks, e.BatchSize());
    }
  }

  lemma DistinctKeys(ks: seq<BlobKey>, i: nat)
    requires Ascending(Less, ks) && i <= |ks|
    ensures forall j :: i <= j < |ks| ==> ks[j] !in ks[..i]
  {
    forall j, k | 0 <= k < i <= j < |ks| ensures ks[k] != ks[j] {
      LessIrreflexive(ks[j]);
    }
  }

  lemma StuckExchange(e: InventoryEnv, ks: seq<BlobKey>)
    requires Ascending(Less, ks) && [] !in ks && |ks| > e.BatchSize()
    requires (forall k :: k in ks ==> Sendable(e, k)) && forall s :: |e.encode(s)| > 0
    ensures PagedFrom(e, Budget(FirstPageCost(e, ks), 0), ks, [], 0, 0)
         == Ok(Exchange(ks[..e.BatchSize()], FirstPageCost(e, ks), [], false))
  {
    hide FirstPageCost, PagedFrom, Sendable, Less, Fit, WholePages;
    var cost, size := FirstPageCost(e, ks), e.BatchSize();
    var b := Budget(cost, 0);
    FirstPage(e, ks);
    assert PageKeys(size, 1) == size by {
      assert PageKeys(size, 0) == 0;
    }
    var page := ks[size..Min(|ks|, size + PageBound(e, b, size))];
    assert forall k :: k in page ==> k in ks;
    NothingFits(e, cost, page, FirstSize(e, b, |page|, size), size);
    assert OutOfBytesAfter(e, b, ks, 0, 1);
    OutOfBytesResets(e, b, ks, 0, 1);
    assert ks[0..size] == ks[..size] && ks[..0] == [];
  }
}
