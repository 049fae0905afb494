/** Advertising an inventory to a peer in bounded frames and bounded exchanges (inventory.go). */
module Inventory {
  import opened Orders
  import opened Bytes
  import opened Outcomes
  import opened Pager
  import opened Summaries

  const DefaultMaxKeys := 4096
  const DefaultMaxKeyBytes := 512
  const DefaultMaxFrameBytes := 4_194_304

  /** Message limits and the JSON encoding of a key list; a limit that is not positive takes its default. */
  datatype InventoryEnv = InventoryEnv(encode: seq<BlobKey> -> seq<byte>, maxKeys: int, maxKeyBytes: int, maxFrameBytes: int) {
    /** inventoryBatchSize */
    function BatchSize(): (n: nat)
      ensures n > 0
    {
      if maxKeys > 0 then maxKeys else DefaultMaxKeys
    }

    function KeyBytes(): nat {
      if maxKeyBytes > 0 then maxKeyBytes else DefaultMaxKeyBytes
    }

    function MaxPayload(): nat {
      if maxFrameBytes > 0 then maxFrameBytes else DefaultMaxFrameBytes
    }
  }

  /** A budget that is not positive is unlimited. */
  datatype Budget = Budget(maxBytes: int, maxKeys: int)

  function KeyFault(e: InventoryEnv, keys: seq<BlobKey>): Option<Error> {
    if keys == [] then None
    else
      var last := keys[|keys| - 1];
      var before := KeyFault(e, keys[..|keys| - 1]);
      if before.Some? then before
      else if last == [] then Some(KeyEmpty)
      else if |last| > e.KeyBytes() then Some(KeyTooLarge)
      else None
  }

  /** EncodeBlobHas */
  function Payload(e: InventoryEnv, keys: seq<BlobKey>): Result<seq<byte>> {
    if keys == [] then Err(KeysEmpty)
    else if |keys| > e.BatchSize() then Err(TooManyKeys)
    else match KeyFault(e, keys)
      case Some(x) => Err(x)
      case None => Ok(e.encode(keys))
  }

  /** A key that fits a frame of its own. */
  predicate Sendable(e: InventoryEnv, k: BlobKey) {
    0 < |k| <= e.KeyBytes() && |e.encode([k])| <= e.MaxPayload()
  }

  lemma {:induction false} SendableKeys(e: InventoryEnv, keys: seq<BlobKey>)
    requires forall k :: k in keys ==> Sendable(e, k)
    ensures KeyFault(e, keys).None?
  {
    if keys != [] {
      assert keys[|keys| - 1] in keys;
      SendableKeys(e, keys[..|keys| - 1]);
    }
  }

  // ---- one frame ----

  predicate OverBytes(b: Budget, total: nat) {
    b.maxBytes > 0 && total > b.maxBytes
  }

  /** The number of keys the halving loop settles on for a frame starting at start; 0 ends the exchange. */
  function Fit(e: InventoryEnv, b: Budget, keys: seq<BlobKey>, start: nat, n: nat, sentKeys: nat, sentBytes: nat): Result<nat>
    requires 0 < n && start + n <= |keys|
    decreases n
  {
    match Payload(e, keys[start..start + n])
    case Err(x) => Err(x)
    case Ok(payload) =>
      if |payload| > e.MaxPayload() then
        if n == 1 then Err(FrameTooLarge) else Fit(e, b, keys, start, n / 2, sentKeys, sentBytes)
      else if OverBytes(b, sentBytes + |payload|) && n > 1 then Fit(e, b, keys, start, n / 2, sentKeys, sentBytes)
      else if OverBytes(b, sentBytes + |payload|) && sentKeys > 0 then Ok(0)
      else Ok(n)
  }

  lemma {:induction false} FitMeaning(e: InventoryEnv, b: Budget, keys: seq<BlobKey>, start: nat, n: nat, sentKeys: nat, sentBytes: nat)
    requires 0 < n && start + n <= |keys|
    ensures var fit := Fit(e, b, keys, start, n, sentKeys, sentBytes);
            && (fit.Ok? && fit.value == 0 ==>
                  && sentKeys > 0 && Payload(e, keys[start..start + 1]).Ok?
                  && OverBytes(b, sentBytes + |Payload(e, keys[start..start + 1]).value|))
            && (fit.Ok? && fit.value > 0 ==>
                  && fit.value <= n && var frame := keys[start..start + fit.value];
                  && Payload(e, frame).Ok? && |Payload(e, frame).value| <= e.MaxPayload()
                  && (OverBytes(b, sentBytes + |Payload(e, frame).value|) ==> fit.value == 1 && sentKeys == 0))
    decreases n
  {
    hide Payload, OverBytes;
    if n > 1 {
      FitMeaning(e, b, keys, start, n / 2, sentKeys, sentBytes);
    }
  }

  /** n halved k times. */
  function Halved(n: nat, k: nat): nat {
    if k == 0 then n else Halved(n, k - 1) / 2
  }

  lemma {:induction false} HalvedAgain(n: nat, k: nat)
    ensures Halved(n / 2, k) == Halved(n, k + 1)
  {
    if k > 0 {
      HalvedAgain(n, k - 1);
    }
  }

  /** That many keys encode, but to more than a frame holds or than the byte budget has left. */
  predicate TooMuch(e: InventoryEnv, b: Budget, keys: seq<BlobKey>, start: nat, n: nat, sentBytes: nat)
    requires start + n <= |keys|
  {
    && Payload(e, keys[start..start + n]).Ok?
    && var size := |Payload(e, keys[start..start + n]).value|;
       size > e.MaxPayload() || (b.maxBytes > 0 && sentBytes + size > b.maxBytes)
  }

  /**
   * The frame size, exactly: the first size is halved as long as it is too much and can be; the outcome is that of the size
   * reached. A single key too large for a frame is an error, one beyond the byte budget is sent only as the first of all.
   */
  lemma {:induction false} FitHalves(
    e: InventoryEnv, b: Budget, keys: seq<BlobKey>, start: nat, n: nat, sentKeys: nat, sentBytes: nat) returns (k: nat)
    requires 0 < n && start + n <= |keys|
    ensures 0 < Halved(n, k) <= n
    ensures forall j :: 0 <= j < k ==> 1 < Halved(n, j) <= n && TooMuch(e, b, keys, start, Halved(n, j), sentBytes)
    ensures Halved(n, k) == 1 || !TooMuch(e, b, keys, start, Halved(n, k), sentBytes)
    ensures var m, fit := Halved(n, k), Fit(e, b, keys, start, n, sentKeys, sentBytes);
            match Payload(e, keys[start..start + m])
            case Err(x) => fit == Err(x)
            case Ok(payload) =>
              if |payload| > e.MaxPayload() then fit == Err(FrameTooLarge)
              else if b.maxBytes > 0 && sentBytes + |payload| > b.maxBytes && sentKeys > 0 then fit == Ok(0)
              else fit == Ok(m)
    decreases n
  {
    hide Payload;
    k := 0;
    if n > 1 && TooMuch(e, b, keys, start, n, sentBytes) {
      var rest := FitHalves(e, b, keys, start, n / 2, sentKeys, sentBytes);
      k := rest + 1;
      HalvedAgain(n, rest);
      forall j | 0 <= j < k ensures 1 < Halved(n, j) <= n && TooMuch(e, b, keys, start, Halved(n, j), sentBytes) {
        if j > 0 {
          HalvedAgain(n, j - 1);
          assert 1 < Halved(n / 2, j - 1) <= n / 2 && TooMuch(e, b, keys, start, Halved(n / 2, j - 1), sentBytes);
        }
      }
    }
  }

  /** Keys encode exactly when they are few enough and each is there and short enough; the error is that of the first that is not. */
  lemma {:induction false} PayloadExactly(e: InventoryEnv, keys: seq<BlobKey>)
    ensures Payload(e, keys).Ok? <==> 0 < |keys| <= e.BatchSize() && forall i :: 0 <= i < |keys| ==> 0 < |keys[i]| <= e.KeyBytes()
    ensures Payload(e, keys).Ok? ==> Payload(e, keys).value == e.encode(keys)
    ensures keys == [] ==> Payload(e, keys) == Err(KeysEmpty)
    ensures |keys| > e.BatchSize() ==> Payload(e, keys) == Err(TooManyKeys)
    ensures forall i :: 0 <= i < |keys| <= e.BatchSize() && !(0 < |keys[i]| <= e.KeyBytes()) &&
                        (forall j :: 0 <= j < i ==> 0 < |keys[j]| <= e.KeyBytes()) ==>
              Payload(e, keys) == Err(if keys[i] == [] then KeyEmpty else KeyTooLarge)
  {
    KeyFaultExactly(e, keys);
  }

  lemma {:induction false} KeyFaultExactly(e: InventoryEnv, keys: seq<BlobKey>)
    ensures KeyFault(e, keys).None? <==> forall i :: 0 <= i < |keys| ==> 0 < |keys[i]| <= e.KeyBytes()
    ensures forall i :: 0 <= i < |keys| && !(0 < |keys[i]| <= e.KeyBytes()) &&
                        (forall j :: 0 <= j < i ==> 0 < |keys[j]| <= e.KeyBytes()) ==>
              KeyFault(e, keys) == Some(if keys[i] == [] then KeyEmpty else KeyTooLarge)
  {
    if keys != [] {
      var init := keys[..|keys| - 1];
      KeyFaultExactly(e, init);
      assert forall i :: 0 <= i < |init| ==> init[i] == keys[i];
    }
  }

  /** The limits a message is checked against: the configured ones, or 4096 keys of 512 bytes in 4 MiB. */
  lemma LimitsExactly(e: InventoryEnv)
    ensures e.BatchSize() == (if e.maxKeys > 0 then e.maxKeys else 4096)
    ensures e.KeyBytes() == (if e.maxKeyBytes > 0 then e.maxKeyBytes else 512)
    ensures e.MaxPayload() == (if e.maxFrameBytes > 0 then e.maxFrameBytes else 4 * 1024 * 1024)
  {
  }

  lemma {:induction false} FitSucceeds(e: InventoryEnv, b: Budget, keys: seq<BlobKey>, start: nat, n: nat, sentKeys: nat, sentBytes: nat)
    requires 0 < n <= e.BatchSize() && start + n <= |keys| && forall k :: k in keys ==> Sendable(e, k)
    ensures Fit(e, b, keys, start, n, sentKeys, sentBytes).Ok?
    decreases n
  {
    SendableKeys(e, keys[start..start + n]);
    if n == 1 {
      assert keys[start] in keys && keys[start..start + 1] == [keys[start]];
    } else {
      FitSucceeds(e, b, keys, start, n / 2, sentKeys, sentBytes);
    }
  }

  // ---- the frames of one key list ----

  /** Where sending stopped, the bytes charged so far, and the frames written. */
  datatype Sent = Sent(stop: nat, bytes: nat, frames: seq<seq<BlobKey>>)

  predicate KeysSpent(b: Budget, sentKeys: nat) {
    b.maxKeys > 0 && sentKeys >= b.maxKeys
  }

  /** The size the halving loop starts from. */
  function FirstSize(e: InventoryEnv, b: Budget, left: nat, sentKeys: nat): (n: nat)
    requires left > 0 && !KeysSpent(b, sentKeys)
    ensures 0 < n <= left && n <= e.BatchSize() && (b.maxKeys > 0 ==> n <= b.maxKeys - sentKeys)
    ensures n == left || n == e.BatchSize() || (b.maxKeys > 0 && n == b.maxKeys - sentKeys)
  {
    var n := Min(e.BatchSize(), left);
    if b.maxKeys > 0 then Min(n, b.maxKeys - sentKeys) else n
  }

  /** The size of the next frame. */
  function Chosen(e: InventoryEnv, b: Budget, keys: seq<BlobKey>, start: nat, sentKeys: nat, sentBytes: nat): Result<nat>
    requires start < |keys| && !KeysSpent(b, sentKeys)
  {
    Fit(e, b, keys, start, FirstSize(e, b, |keys| - start, sentKeys), sentKeys, sentBytes)
  }

  lemma ChosenMeaning(e: InventoryEnv, b: Budget, keys: seq<BlobKey>, start: nat, sentKeys: nat, sentBytes: nat)
    requires start < |keys| && !KeysSpent(b, sentKeys)
    ensures var fit := Chosen(e, b, keys, start, sentKeys, sentBytes);
            && (fit.Ok? && fit.value == 0 ==> StoppedByBytes(e, b, keys, start, sentKeys, sentBytes))
            && (fit.Ok? && fit.value > 0 ==>
                  && start + fit.value <= |keys| && (b.maxKeys > 0 ==> sentKeys + fit.value <= b.maxKeys)
                  && Carries(e, b, keys[start..start + fit.value], sentKeys, sentBytes))
  {
    hide Payload, OverBytes, Fit;
    FitMeaning(e, b, keys, start, FirstSize(e, b, |keys| - start, sentKeys), sentKeys, sentBytes);
  }

  /** The next key does not fit what is left of the byte budget, and it is not the first of the exchange. */
  predicate StoppedByBytes(e: InventoryEnv, b: Budget, keys: seq<BlobKey>, stop: nat, sentKeys: nat, bytes: nat)
    requires stop < |keys|
  {
    && sentKeys > 0 && Payload(e, keys[stop..stop + 1]).Ok?
    && OverBytes(b, bytes + |Payload(e, keys[stop..stop + 1]).value|)
  }

  /** A frame that may be written: within the limits, and over the byte budget only as the first key of all. */
  predicate Carries(e: InventoryEnv, b: Budget, frame: seq<BlobKey>, sentKeys: nat, sentBytes: nat) {
    && Payload(e, frame).Ok? && |Payload(e, frame).value| <= e.MaxPayload()
    && (OverBytes(b, sentBytes + |Payload(e, frame).value|) ==> |frame| == 1 && sentKeys == 0)
  }

  function SendFrom(e: InventoryEnv, b: Budget, keys: seq<BlobKey>, start: nat, sentKeys: nat, sentBytes: nat): Result<Sent>
    requires start <= |keys|
    decreases |keys| - start
  {
    if start == |keys| || KeysSpent(b, sentKeys) then Ok(Sent(start, sentBytes, []))
    else
      ChosenMeaning(e, b, keys, start, sentKeys, sentBytes);
      match Chosen(e, b, keys, start, sentKeys, sentBytes)
      case Err(x) => Err(x)
      case Ok(n) =>
        if n == 0 then Ok(Sent(start, sentBytes, []))
        else
          var frame := keys[start..start + n];
          match SendFrom(e, b, keys, start + n, sentKeys + n, sentBytes + |Payload(e, frame).value|)
          case Err(x) => Err(x)
          case Ok(r) => Ok(r.(frames := [frame] + r.frames))
  }

  function Flat(frames: seq<seq<BlobKey>>): seq<BlobKey> {
    if frames == [] then [] else frames[0] + Flat(frames[1..])
  }

  /** Every frame can be written: it encodes within the message limits and the frame limit. */
  ghost predicate Writable(e: InventoryEnv, frames: seq<seq<BlobKey>>) {
    forall i :: 0 <= i < |frames| ==> Payload(e, frames[i]).Ok? && |Payload(e, frames[i]).value| <= e.MaxPayload()
  }

  function Charged(e: InventoryEnv, frames: seq<seq<BlobKey>>): nat {
    if frames == [] then 0
    else (if Payload(e, frames[0]).Ok? then |Payload(e, frames[0]).value| else 0) + Charged(e, frames[1..])
  }

  /** The frames carry a prefix of what is left, in order, each within limits, and the charge is theirs. */
  lemma {:induction false} SentFrames(e: InventoryEnv, b: Budget, keys: seq<BlobKey>, start: nat, sentKeys: nat, sentBytes: nat)
    requires start <= |keys| && SendFrom(e, b, keys, start, sentKeys, sentBytes).Ok?
    ensures var r := SendFrom(e, b, keys, start, sentKeys, sentBytes).value;
            && start <= r.stop <= |keys| && Flat(r.frames) == keys[start..r.stop]
            && Writable(e, r.frames) && r.bytes == sentBytes + Charged(e, r.frames)
    decreases |keys| - start
  {
    hide Payload, OverBytes, Chosen;
    if start < |keys| && !KeysSpent(b, sentKeys) {
      ChosenMeaning(e, b, keys, start, sentKeys, sentBytes);
      var n := Chosen(e, b, keys, start, sentKeys, sentBytes).value;
      if n > 0 {
        var bytes := sentBytes + |Payload(e, keys[start..start + n]).value|;
        SentFrames(e, b, keys, start + n, sentKeys + n, bytes);
        JoinSlices(keys, start, start + n, SendFrom(e, b, keys, start + n, sentKeys + n, bytes).value.stop);
      }
    }
  }

  /** The budgets hold, and a list is left unfinished only when one of them is spent. */
  lemma {:induction false} SentBudget(e: InventoryEnv, b: Budget, keys: seq<BlobKey>, start: nat, sentKeys: nat, sentBytes: nat)
    requires start <= |keys| && SendFrom(e, b, keys, start, sentKeys, sentBytes).Ok?
    ensures var r := SendFrom(e, b, keys, start, sentKeys, sentBytes).value;
            && start <= r.stop <= |keys| && var sent := sentKeys + (r.stop - start);
            && (b.maxKeys > 0 && sentKeys <= b.maxKeys ==> sent <= b.maxKeys)
            && (r.stop > start && OverBytes(b, r.bytes) ==> sentKeys == 0 && r.stop == start + 1)
            && (r.stop == start ==> r.bytes == sentBytes)
            && (r.stop < |keys| ==> KeysSpent(b, sent) || StoppedByBytes(e, b, keys, r.stop, sent, r.bytes))
            && (start < |keys| && sentKeys == 0 ==> r.stop > start)
    decreases |keys| - start
  {
    hide Payload, Chosen;
    if start < |keys| && !KeysSpent(b, sentKeys) {
      ChosenMeaning(e, b, keys, start, sentKeys, sentBytes);
      var n := Chosen(e, b, keys, start, sentKeys, sentBytes).value;
      if n > 0 {
        var bytes := sentBytes + |Payload(e, keys[start..start + n]).value|;
        SentBudget(e, b, keys, start + n, sentKeys + n, bytes);
        if OverBytes(b, bytes) {
          OverStops(e, b, keys, start + n, sentKeys + n, bytes);
        }
      }
    }
  }

  /** Once over the byte budget nothing more is sent. */
  lemma OverStops(e: InventoryEnv, b: Budget, keys: seq<BlobKey>, start: nat, sentKeys: nat, sentBytes: nat)
    requires start <= |keys| && SendFrom(e, b, keys, start, sentKeys, sentBytes).Ok? && sentKeys > 0 && OverBytes(b, sentBytes)
    ensures SendFrom(e, b, keys, start, sentKeys, sentBytes).value == Sent(start, sentBytes, [])
  {
    hide Payload, Chosen;
    if start < |keys| && !KeysSpent(b, sentKeys) {
      ChosenMeaning(e, b, keys, start, sentKeys, sentBytes);
    }
  }

  /** Nothing is refused when every key fits a frame of its own. */
  lemma {:induction false} SendSucceeds(e: InventoryEnv, b: Budget, keys: seq<BlobKey>, start: nat, sentKeys: nat, sentBytes: nat)
    requires start <= |keys| && forall k :: k in keys ==> Sendable(e, k)
    ensures SendFrom(e, b, keys, start, sentKeys, sentBytes).Ok?
    decreases |keys| - start
  {
    hide Payload, OverBytes;
    if start < |keys| && !KeysSpent(b, sentKeys) {
      FitSucceeds(e, b, keys, start, FirstSize(e, b, |keys| - start, sentKeys), sentKeys, sentBytes);
      ChosenMeaning(e, b, keys, start, sentKeys, sentBytes);
      var n := Chosen(e, b, keys, start, sentKeys, sentBytes).value;
      if n > 0 {
        SendSucceeds(e, b, keys, start + n, sentKeys + n, sentBytes + |Payload(e, keys[start..start + n]).value|);
      }
    }
  }

  /** The inner loop: halves the frame until it may be written; 0 when the byte budget ends the exchange. */
  method SizeFrame(e: InventoryEnv, b: Budget, keys: seq<BlobKey>, start: nat, first: nat, sentKeys: nat, sentBytes: nat)
      returns (res: Result<nat>)
    requires 0 < first && start + first <= |keys|
    ensures res == Fit(e, b, keys, start, first, sentKeys, sentBytes)
  {
    hide Payload;
    var n := first;
    while true
      invariant 0 < n <= first
      invariant Fit(e, b, keys, start, n, sentKeys, sentBytes) == Fit(e, b, keys, start, first, sentKeys, sentBytes)
      decreases n
    {
      var payload := Payload(e, keys[start..start + n]);
      if payload.Err? {
        return Err(payload.error);
      }
      if |payload.value| > e.MaxPayload() {
        if n == 1 {
          return Err(FrameTooLarge);
        }
        n := n / 2;
        continue;
      }
      if b.maxBytes > 0 && sentBytes + |payload.value| > b.maxBytes {
        if n > 1 {
          n := n / 2;
          continue;
        }
        if sentKeys > 0 {
          return Ok(0);
        }
      }
      return Ok(n);
    }
  }

  datatype Progress = Progress(cursor: BlobKey, complete: bool, keys: nat, bytes: nat)

  function Prepended(frames: seq<seq<BlobKey>>, res: Result<Sent>): Result<Sent> {
    match res
    case Err(x) => Err(x)
    case Ok(r) => Ok(r.(frames := frames + r.frames))
  }

  function ProgressOf(keys: seq<BlobKey>, sentKeys: nat, r: Sent): Progress
    requires r.stop <= |keys|
  {
    Progress(CursorOf(keys[..r.stop]), r.stop == |keys|, sentKeys + r.stop, r.bytes)
  }

  /** sendBlobHasKeysBudget, returning the frames written to the peer. */
  method SendKeys(e: InventoryEnv, b: Budget, keys: seq<BlobKey>, sentKeys: nat, sentBytes: nat)
      returns (res: Result<Progress>, frames: seq<seq<BlobKey>>)
    ensures match SendFrom(e, b, keys, 0, sentKeys, sentBytes)
            case Err(x) => res == Err(x)
            case Ok(r) => r.stop <= |keys| && frames == r.frames && res == Ok(ProgressOf(keys, sentKeys, r))
  {
    hide Payload, Fit;
    frames := [];
    var start: nat, bytes: nat := 0, sentBytes;
    var cursor: BlobKey := [];
    ghost var all := SendFrom(e, b, keys, 0, sentKeys, sentBytes);
    assert Prepended([], all) == all by {
      PrependNothing(all);
    }
    while start < |keys|
      invariant start <= |keys| && cursor == CursorOf(keys[..start])
      invariant Prepended(frames, SendFrom(e, b, keys, start, sentKeys + start, bytes)) == all
    {
      if b.maxKeys > 0 && sentKeys + start >= b.maxKeys {
        return Ok(Progress(cursor, false, sentKeys + start, bytes)), frames;
      }
      var first := FirstSize(e, b, |keys| - start, sentKeys + start);
      var size := SizeFrame(e, b, keys, start, first, sentKeys + start, bytes);
      ChosenMeaning(e, b, keys, start, sentKeys + start, bytes);
      if size.Err? {
        return Err(size.error), frames;
      }
      if size.value == 0 {
        return Ok(Progress(cursor, false, sentKeys + start, bytes)), frames;
      }
      var frame := keys[start..start + size.value];
      PrependOne(frames, frame, SendFrom(e, b, keys, start + size.value, sentKeys + start + size.value,
                                         bytes + |Payload(e, frame).value|));
      frames := frames + [frame];
      bytes := bytes + |Payload(e, frame).value|;
      start := start + size.value;
      cursor := keys[start - 1];
    }
    return Ok(Progress(cursor, true, sentKeys + start, bytes)), frames;
  }

  lemma PrependNothing(res: Result<Sent>)
    ensures Prepended([], res) == res
  {
    if res.Ok? {
      assert [] + res.value.frames == res.value.frames;
    }
  }

  lemma PrependOne(frames: seq<seq<BlobKey>>, frame: seq<BlobKey>, res: Result<Sent>)
    ensures Prepended(frames + [frame], res) == Prepended(frames, Prepended([frame], res))
  {
    if res.Ok? {
      assert frames + [frame] + res.value.frames == frames + ([frame] + res.value.frames);
    }
  }

  // ---- one exchange ----

  /** The keys advertised in one exchange, the payload bytes charged, the cursor handed to the next, and whether the inventory is done. */
  datatype Exchange = Exchange(keys: seq<BlobKey>, bytes: nat, cursor: BlobKey, complete: bool)

  /** sendInventoryExchange over a store that only lists all its keys. */
  function ListExchange(e: InventoryEnv, b: Budget, ks: seq<BlobKey>, after: BlobKey): Result<Exchange> {
    var rest := ks[Rank(ks, after)..];
    if rest == [] then Ok(Exchange([], 0, after, true))
    else match SendFrom(e, b, rest, 0, 0, 0)
      case Err(x) => Err(x)
      case Ok(r) => Ok(Part(rest, r))
  }

  function Part(keys: seq<BlobKey>, r: Sent): Exchange {
    var n := Min(r.stop, |keys|);
    Exchange(keys[..n], r.bytes, CursorOf(keys[..n]), n == |keys|)
  }

  /** Keys asked of the pager at a time. */
  function PageSize(e: InventoryEnv, b: Budget): (n: nat)
    ensures 0 < n <= e.BatchSize() && (b.maxKeys > 0 ==> n <= b.maxKeys)
    ensures n == e.BatchSize() || (b.maxKeys > 0 && n == b.maxKeys)
  {
    if 0 < b.maxKeys < e.BatchSize() then b.maxKeys else e.BatchSize()
  }

  function PageBound(e: InventoryEnv, b: Budget, sentKeys: nat): (n: nat)
    requires !KeysSpent(b, sentKeys)
    ensures 0 < n <= e.BatchSize() && (b.maxKeys > 0 ==> n <= b.maxKeys - sentKeys)
    ensures n == e.BatchSize() || (b.maxKeys > 0 && n == b.maxKeys - sentKeys)
  {
    if b.maxKeys > 0 then Min(PageSize(e, b), b.maxKeys - sentKeys) else PageSize(e, b)
  }

  /** sendPagedBlobHasBudget from a cursor, over a store whose ordered keys are ks. */
  function PagedFrom(e: InventoryEnv, b: Budget, ks: seq<BlobKey>, cursor: BlobKey, sentKeys: nat, sentBytes: nat): Result<Exchange>
    requires Ascending(Less, ks) && [] !in ks
    decreases |ks| - Rank(ks, cursor)
  {
    if KeysSpent(b, sentKeys) then Ok(Exchange([], sentBytes, cursor, false))
    else
      var page := PageAt(ks, cursor, PageBound(e, b, sentKeys));
      if page == [] then Ok(Exchange([], sentBytes, cursor, true))
      else
        NextPage(ks, cursor, PageBound(e, b, sentKeys));
        match SendFrom(e, b, page, 0, sentKeys, sentBytes)
        case Err(x) => Err(x)
        case Ok(r) =>
          if r.stop < |page| then Ok(Part(page, r))
          else match PagedFrom(e, b, ks, CursorOf(page), sentKeys + |page|, r.bytes)
            case Err(x) => Err(x)
            case Ok(x) => Ok(x.(keys := page + x.keys))
  }

  lemma NextPage(ks: seq<BlobKey>, cursor: BlobKey, limit: nat)
    requires Ascending(Less, ks) && [] !in ks && limit > 0 && PageAt(ks, cursor, limit) != []
    ensures var i, page := Rank(ks, cursor), PageAt(ks, cursor, limit);
            && i + |page| <= |ks| && |page| <= limit && page == ks[i..i + |page|] && CursorOf(page) != []
            && Rank(ks, CursorOf(page)) == i + |page| && (|page| < limit ==> i + |page| == |ks|)
  {
    hide Rank, Less;
    PageSlice(ks, cursor, limit);
    var e := Min(|ks|, Rank(ks, cursor) + limit);
    assert ks[e - 1] in ks;
    RankOfKey(ks, e - 1);
  }

  lemma NoFrames(e: InventoryEnv)
    ensures Flat([]) == [] && Charged(e, []) == 0
  {
  }

  lemma {:induction false} FlatAppend(a: seq<seq<BlobKey>>, b: seq<seq<BlobKey>>)
    ensures Flat(a + b) == Flat(a) + Flat(b)
  {
    if a == [] {
      assert a + b == b;
    } else {
      FlatAppend(a[1..], b);
      assert (a + b)[1..] == a[1..] + b;
    }
  }

  lemma {:induction false} ChargedAppend(e: InventoryEnv, a: seq<seq<BlobKey>>, b: seq<seq<BlobKey>>)
    ensures Charged(e, a + b) == Charged(e, a) + Charged(e, b)
  {
    hide Payload;
    if a == [] {
      assert a + b == b;
    } else {
      ChargedAppend(e, a[1..], b);
      assert (a + b)[1..] == a[1..] + b;
    }
  }

  /** Ascending order with repetitions, as sort.Slice leaves a listing. */
  ghost predicate Sorted(ks: seq<BlobKey>) {
    forall i, j :: 0 <= i < j < |ks| ==> !Less(ks[j], ks[i])
  }

  lemma {:induction false} SortedRank(ks: seq<BlobKey>, after: BlobKey)
    requires Sorted(ks)
    ensures forall i :: 0 <= i < |ks| ==> (Rank(ks, after) <= i <==> IsAfter(after, ks[i]))
  {
    if ks != [] && after != [] {
      var last := |ks| - 1;
      if Less(after, ks[last]) {
        SortedRank(ks[..last], after);
      } else {
        forall i | 0 <= i < last ensures !Less(after, ks[i]) {
          LessTotal(ks[i], ks[last]);
          if Less(after, ks[i]) && ks[i] != ks[last] {
            LessTransitive(after, ks[i], ks[last]);
          }
        }
      }
    }
  }

  /** sort.Search for the first key after the cursor. */
  method FirstAfter(ks: seq<BlobKey>, after: BlobKey) returns (index: nat)
    requires Sorted(ks)
    ensures index == Rank(ks, after)
  {
    SortedRank(ks, after);
    var lo, hi := 0, |ks|;
    while lo < hi
      invariant 0 <= lo <= Rank(ks, after) <= hi <= |ks|
    {
      var mid := (lo + hi) / 2;
      if IsAfter(after, ks[mid]) {
        hi := mid;
      } else {
        lo := mid + 1;
      }
    }
    index := lo;
  }

  method SortKeys(listed: seq<BlobKey>) returns (ks: seq<BlobKey>)
    ensures Sorted(ks) && multiset(ks) == multiset(listed)
  {
    hide Sorted;
    ks := [];
    SortedNone();
    for i := 0 to |listed|
      invariant Sorted(ks) && multiset(ks) == multiset(listed[..i])
    {
      assert listed[..i + 1] == listed[..i] + [listed[i]];
      ks := InsertSorted(ks, listed[i]);
    }
    assert listed[..|listed|] == listed;
  }

  lemma SortedNone()
    ensures Sorted([])
  {
  }

  method InsertSorted(ks: seq<BlobKey>, k: BlobKey) returns (out: seq<BlobKey>)
    requires Sorted(ks)
    ensures Sorted(out) && multiset(out) == multiset(ks) + multiset{k}
  {
    hide Less;
    var n: nat := |ks|;
    while n > 0 && Less(k, ks[n - 1])
      invariant n <= |ks| && forall j :: n <= j < |ks| ==> Less(k, ks[j])
    {
      n := n - 1;
    }
    SortedInsert(ks, k, n);
    assert ks == ks[..n] + ks[n..];
    out := ks[..n] + [k] + ks[n..];
  }

  lemma SortedInsert(ks: seq<BlobKey>, k: BlobKey, n: nat)
    requires Sorted(ks) && n <= |ks| && (forall j :: n <= j < |ks| ==> Less(k, ks[j])) && (n > 0 ==> !Less(k, ks[n - 1]))
    ensures Sorted(ks[..n] + [k] + ks[n..])
  {
    forall j | n <= j < |ks| ensures !Less(ks[j], k) {
      if Less(ks[j], k) {
        LessTransitive(k, ks[j], k);
        LessIrreflexive(k);
      }
    }
    forall j | 0 <= j < n ensures !Less(k, ks[j]) {
      if j < n - 1 && Less(k, ks[j]) {
        LessTotal(ks[j], ks[n - 1]);
        if ks[j] != ks[n - 1] {
          LessTransitive(k, ks[j], ks[n - 1]);
        }
      }
    }
    SortedJoin(ks[..n], k, ks[n..], ks);
  }

  lemma SortedJoin(low: seq<BlobKey>, k: BlobKey, high: seq<BlobKey>, ks: seq<BlobKey>)
    requires Sorted(ks) && ks == low + high
    requires (forall i :: 0 <= i < |low| ==> !Less(k, low[i])) && forall i :: 0 <= i < |high| ==> !Less(high[i], k)
    ensures Sorted(low + [k] + high)
  {
    var out, n := low + [k] + high, |low|;
    forall i, j | 0 <= i < j < |out| ensures !Less(out[j], out[i]) {
      var x, y := if i < n then i else i - 1, if j < n then j else j - 1;
      if i != n && j != n {
        assert ks[x] == out[i] && ks[y] == out[j];
      }
    }
  }

  /** A listing without repetitions sorts to the ordered index of its keys. */
  lemma SortedIndex(listed: seq<BlobKey>, ks: seq<BlobKey>)
    requires Sorted(ks) && multiset(ks) == multiset(listed) && forall k :: multiset(listed)[k] <= 1
    ensures IsIndex(Elements(listed), ks)
  {
    hide Less;
    forall i, j | 0 <= i < j < |ks| ensures Less(ks[i], ks[j]) {
      TwiceListed(ks, i, j);
      LessTotal(ks[i], ks[j]);
    }
    forall k ensures k in ks <==> k in listed {
      assert k in ks <==> k in multiset(ks);
      assert k in listed <==> k in multiset(listed);
    }
  }

  lemma TwiceListed(ks: seq<BlobKey>, i: nat, j: nat)
    requires i < j < |ks|
    ensures ks[i] == ks[j] ==> multiset(ks)[ks[i]] >= 2
  {
    assert ks == ks[..j] + ks[j..] && ks[i] in ks[..j] && ks[j] in ks[j..];
    assert multiset(ks) == multiset(ks[..j]) + multiset(ks[j..]);
    assert ks[i] in multiset(ks[..j]) && ks[j] in multiset(ks[j..]);
  }

  /** No key of a sorted list is above its last. */
  lemma LastIsGreatest(a: seq<BlobKey>, k: BlobKey)
    requires Sorted(a) && k in a
    ensures a != [] && !Less(a[|a| - 1], k)
  {
    var i :| 0 <= i < |a| && a[i] == k;
    LessIrreflexive(k);
    if i < |a| - 1 {
      assert !Less(a[|a| - 1], a[i]);
    }
  }

  lemma WithoutLast(a: seq<BlobKey>)
    requires a != [] && Sorted(a)
    ensures multiset(a[..|a| - 1]) == multiset(a) - multiset{a[|a| - 1]} && Sorted(a[..|a| - 1])
  {
    hide Less;
    assert a == a[..|a| - 1] + [a[|a| - 1]];
  }

  lemma SameGreatest(a: seq<BlobKey>, b: seq<BlobKey>)
    requires a != [] && Sorted(a) && Sorted(b) && multiset(a) == multiset(b)
    ensures b != [] && a[|a| - 1] == b[|b| - 1]
  {
    hide Less, Sorted;
    assert a[|a| - 1] in multiset(a);
    LastIsGreatest(b, a[|a| - 1]);
    assert b[|b| - 1] in multiset(b);
    LastIsGreatest(a, b[|b| - 1]);
    LessTotal(a[|a| - 1], b[|b| - 1]);
  }

  /** A listing has one sorted form. */
  lemma {:induction false} SortedUnique(a: seq<BlobKey>, b: seq<BlobKey>)
    requires Sorted(a) && Sorted(b) && multiset(a) == multiset(b)
    ensures a == b
    decreases |a|
  {
    hide Less, Sorted;
    if a == [] {
      assert |multiset(b)| == |b|;
    } else {
      SameGreatest(a, b);
      WithoutLast(a);
      WithoutLast(b);
      SortedUnique(a[..|a| - 1], b[..|b| - 1]);
      assert a == a[..|a| - 1] + [a[|a| - 1]] && b == b[..|b| - 1] + [b[|b| - 1]];
    }
  }

  /** sendInventoryExchange for a lister without pages; listed is in any order and ks is what it sorts to. */
  method SendList(e: InventoryEnv, b: Budget, listed: seq<BlobKey>, after: BlobKey)
      returns (res: Result<(BlobKey, bool)>, frames: seq<seq<BlobKey>>)
    ensures forall ks :: Sorted(ks) && multiset(ks) == multiset(listed) ==>
              match ListExchange(e, b, ks, after)
              case Err(x) => res == Err(x)
              case Ok(x) => res == Ok((x.cursor, x.complete)) && Flat(frames) == x.keys && Charged(e, frames) == x.bytes
  {
    hide SendFrom, Rank, Less, Sorted;
    var keys := SortKeys(listed);
    forall ks | Sorted(ks) && multiset(ks) == multiset(listed) ensures ks == keys {
      SortedUnique(ks, keys);
    }
    var start := FirstAfter(keys, after);
    if start == |keys| {
      NoFrames(e);
      return Ok((after, true)), [];
    }
    var sent;
    sent, frames := SendKeys(e, b, keys[start..], 0, 0);
    if sent.Err? {
      return Err(sent.error), frames;
    }
    SentFrames(e, b, keys[start..], 0, 0, 0);
    res := Ok((sent.value.cursor, sent.value.complete));
  }

  function Joined(sent: seq<BlobKey>, res: Result<Exchange>): Result<Exchange> {
    match res
    case Err(x) => Err(x)
    case Ok(x) => Ok(x.(keys := sent + x.keys))
  }

  lemma JoinNothing(res: Result<Exchange>)
    ensures Joined([], res) == res
  {
    if res.Ok? {
      assert [] + res.value.keys == res.value.keys;
    }
  }

  lemma JoinMore(sent: seq<BlobKey>, page: seq<BlobKey>, res: Result<Exchange>)
    ensures Joined(sent + page, res) == Joined(sent, Joined(page, res))
  {
    if res.Ok? {
      assert sent + page + res.value.keys == sent + (page + res.value.keys);
    }
  }

  /** sendPagedBlobHasBudget over a memory store. */
  method SendPaged(e: InventoryEnv, b: Budget, store: MemoryStore, after: BlobKey, ghost ks: seq<BlobKey>)
      returns (res: Result<(BlobKey, bool)>, frames: seq<seq<BlobKey>>)
    requires store.Valid() && IsIndex(store.data.Keys, ks)
    ensures [] !in ks
    ensures match PagedFrom(e, b, ks, after, 0, 0)
            case Err(x) => res == Err(x)
            case Ok(x) => res == Ok((x.cursor, x.complete)) && Flat(frames) == x.keys && Charged(e, frames) == x.bytes
  {
    hide SendFrom, Rank, Less, IsPage, PageAt, Ascending, Flat, Writable, Charged, Payload;
    assert [] !in Elements(ks);
    NoFrames(e);
    var cursor, sentKeys: nat, sentBytes: nat := after, 0, 0;
    frames := [];
    ghost var all := PagedFrom(e, b, ks, after, 0, 0);
    JoinNothing(all);
    while true
      invariant Joined(Flat(frames), PagedFrom(e, b, ks, cursor, sentKeys, sentBytes)) == all
      invariant sentBytes == Charged(e, frames)
      decreases |ks| - Rank(ks, cursor)
    {
      if b.maxKeys > 0 && sentKeys >= b.maxKeys {
        return Ok((cursor, false)), frames;
      }
      var limit := PageBound(e, b, sentKeys);
      var page, next := store.ListKeyPage(cursor, limit);
      StoreServes(store.data.Keys, ks, cursor, limit, page);
      if page == [] {
        return Ok((cursor, true)), frames;
      }
      NextPage(ks, cursor, limit);
      var sent, more := SendKeys(e, b, page, sentKeys, sentBytes);
      if sent.Err? {
        return Err(sent.error), frames;
      }
      SentFrames(e, b, page, 0, sentKeys, sentBytes);
      FlatAppend(frames, more);
      ChargedAppend(e, frames, more);
      ghost var before := Flat(frames);
      frames := frames + more;
      if !sent.value.complete {
        return Ok((sent.value.cursor, false)), frames;
      }
      assert page[0..|page|] == page;
      JoinMore(before, page, PagedFrom(e, b, ks, next, sent.value.keys, sent.value.bytes));
      sentKeys, sentBytes, cursor := sent.value.keys, sent.value.bytes, next;
    }
  }
}
