/** The durable version allocator (authority.go). */
module Authority {
  import opened Bytes
  import opened Versions
  import opened Outcomes

  const MaxU64: u64 := 0xFFFF_FFFF_FFFF_FFFF

  /** incrementAuthorityVersion: the sequence rolls over into the next epoch. */
  function Increment(v: Version): Result<Version> {
    if v.epoch == 0 then Err(AuthorityVersion)
    else if v.sequence < MaxU64 then Ok(Version(v.epoch, v.sequence + 1))
    else if v.epoch == MaxU64 then Err(AuthorityExhausted)
    else Ok(Version(v.epoch + 1, 1))
  }

  /** The successor is above, and nothing above is skipped but sequence zero of a new epoch. */
  lemma IncrementMeaning(v: Version)
    requires v.epoch != 0
    ensures Increment(v).Ok? <==> v != Version(MaxU64, MaxU64)
    ensures Increment(v).Err? ==> Increment(v).error == AuthorityExhausted
    ensures Increment(v).Ok? ==>
              && v.Lt(Increment(v).value) && Increment(v).value.epoch != 0 && Increment(v).value.sequence != 0
              && forall u: Version :: v.Lt(u) && u.Lt(Increment(v).value) ==> u.sequence == 0
  {
  }

  /** The allocator: what the file holds and the last token in memory. */
  datatype Allocator = Allocator(file: Option<Version>, current: Version)

  function Persisted(a: Allocator, w: Write): Allocator {
    if w.Lost? then a else a.(file := Some(a.current))
  }

  /** Next: adopt a newer observed tail, allocate the successor, persist, and only then return it. */
  function NextFrom(a: Allocator, observed: Version, w: Write): (Result<Version>, Allocator) {
    if a.current.Lt(observed) && observed.epoch == 0 then (Err(AuthorityVersion), a)
    else
      var base := Max(a.current, observed);
      match Increment(base)
      case Err(e) => (Err(e), a.(current := base))
      case Ok(next) =>
        var a' := Persisted(a.(current := next), w);
        (if w.Landed? then Ok(next) else Err(IOFailure), a')
  }

  /** OpenAuthority: epoch is the random epoch drawn for a new file. */
  function OpenFrom(file: Option<Version>, observed: Version, epoch: u64, w: Write): (Result<Version>, Option<Version>) {
    match file
    case None =>
      var first := if observed.epoch != 0 then observed else Version(if epoch == 0 then 1 else epoch, 0);
      (if w.Landed? then Ok(first) else Err(IOFailure), if w.Lost? then None else Some(first))
    case Some(v) =>
      if v.epoch == 0 then (Err(AuthorityVersion), file)
      else if !v.Lt(observed) then (Ok(v), file)
      else (if w.Landed? then Ok(observed) else Err(IOFailure), if w.Lost? then file else Some(observed))
  }

  class VersionAuthority {
    var file: Option<Version>
    var current: Version

    ghost function State(): Allocator
      reads this
    {
      Allocator(file, current)
    }

    constructor (file: Option<Version>, current: Version)
      ensures State() == Allocator(file, current)
    {
      this.file, this.current := file, current;
    }

    method Next(observed: Version, w: Write) returns (res: Result<Version>)
      modifies this
      ensures (res, State()) == NextFrom(old(State()), observed, w)
    {
      if current.Lt(observed) {
        if observed.epoch == 0 {
          return Err(AuthorityVersion);
        }
        current := observed;
      }
      var next := Increment(current);
      if next.Err? {
        return next;
      }
      current := next.value;
      if w.Lost? {
        return Err(IOFailure);
      }
      file := Some(current);
      res := if w.Landed? then next else Err(IOFailure);
    }
  }

  /**
   * A call asks for the first usable version above both memory and tail, hands it out exactly when its write is known to
   * have landed, and keeps it from being handed out again when it may have.
   */
  lemma NextExactly(a: Allocator, observed: Version, w: Write)
    requires a.current.epoch != 0
    ensures var (res, a') := NextFrom(a, observed, w);
            var base := Max(a.current, observed);
            if base == Version(MaxU64, MaxU64) then res == Err(AuthorityExhausted) && a' == Allocator(a.file, base)
            else
              && base.Lt(a'.current) && a'.current.sequence != 0
              && (forall u: Version :: base.Lt(u) && u.Lt(a'.current) ==> u.sequence == 0)
              && res == (if w.Landed? then Ok(a'.current) else Err(IOFailure))
              && a'.file == if w.Lost? then a.file else Some(a'.current)
  {
    IncrementMeaning(Max(a.current, observed));
  }

  /** Opening starts from the greater of file and tail, or from a fresh epoch, and writes the file exactly when it changes. */
  lemma OpenExactly(file: Option<Version>, observed: Version, epoch: u64, w: Write)
    ensures var (res, after) := OpenFrom(file, observed, epoch, w);
            && (file.Some? && file.value.epoch == 0 ==> res == Err(AuthorityVersion) && after == file)
            && (file.Some? && file.value.epoch != 0 ==>
                  && (res.Ok? ==> res.value == Max(file.value, observed))
                  && (res.Err? <==> file.value.Lt(observed) && !w.Landed?)
                  && after == if file.value.Lt(observed) && !w.Lost? then Some(observed) else file)
            && (file.None? ==>
                  && (res.Ok? <==> w.Landed?) && (after.Some? <==> !w.Lost?)
                  && (res.Ok? ==> after == Some(res.value) && observed.Le(res.value) && res.value.epoch != 0
                                  && (observed.epoch != 0 ==> res.value == observed)
                                  && (observed.epoch == 0 ==> res.value.sequence == 0 && (epoch != 0 ==> res.value.epoch == epoch))))
  {
  }

  // ---- every run ----

  datatype Event =
    | Start(observed: Version, epoch: u64, w: Write)
    | Stop
    | Issue(observed: Version, w: Write)

  /** The state file, the running allocator if any, and every token handed out with the tail it was asked for. */
  datatype World = World(file: Option<Version>, live: Option<Version>, issued: seq<Version>, observed: seq<Version>)

  function WorldAfter(s: World, e: Event): World {
    match e
    case Stop => s.(live := None)
    case Start(observed, epoch, w) =>
      if s.live.Some? then s
      else
        var (res, file) := OpenFrom(s.file, observed, epoch, w);
        s.(file := file, live := if res.Ok? then Some(res.value) else None)
    case Issue(observed, w) =>
      if s.live.None? then s
      else
        var (res, a) := NextFrom(Allocator(s.file, s.live.value), observed, w);
        World(a.file, Some(a.current),
              if res.Ok? then s.issued + [res.value] else s.issued,
              if res.Ok? then s.observed + [observed] else s.observed)
  }

  /** What an event does: a running allocator hands out the token its call yields, and a start or a stop is what it says. */
  lemma WorldEffects(s: World, observed: Version, epoch: u64)
    requires s.live.Some? ==> s.live.value.epoch != 0
    ensures s.live.Some? && Max(s.live.value, observed) != Version(MaxU64, MaxU64) ==>
              var t := WorldAfter(s, Issue(observed, Landed));
              && t.live.Some? && t.file == t.live && Max(s.live.value, observed).Lt(t.live.value)
              && t.issued == s.issued + [t.live.value] && t.observed == s.observed + [observed]
    ensures s.live.Some? && Max(s.live.value, observed) != Version(MaxU64, MaxU64) ==>
              forall w: Write :: !w.Landed? ==> WorldAfter(s, Issue(observed, w)).issued == s.issued
    ensures s.live.None? && s.file.None? ==> WorldAfter(s, Start(observed, epoch, Landed)).live.Some?
    ensures s.live.None? && s.file.Some? && s.file.value.epoch != 0 ==>
              WorldAfter(s, Start(observed, epoch, Landed)).live == Some(Max(s.file.value, observed))
    ensures WorldAfter(s, Stop) == s.(live := None)
  {
    if s.live.Some? {
      IncrementMeaning(Max(s.live.value, observed));
    }
  }

  function WorldRun(s: World, es: seq<Event>): World {
    if es == [] then s else WorldAfter(WorldRun(s, es[..|es| - 1]), es[|es| - 1])
  }

  ghost predicate WorldInv(s: World) {
    && (s.file.Some? ==> s.file.value.epoch != 0)
    && (s.live.Some? ==> s.live.value.epoch != 0 && s.file.Some? && s.file.value.Le(s.live.value))
    && (forall i :: 0 <= i < |s.issued| ==> s.file.Some? && s.issued[i].Le(s.file.value))
  }

  /** Tokens strictly rise, so none is handed out twice, and each is above the tail it was allocated for. */
  ghost predicate Unique(s: World) {
    && |s.issued| == |s.observed|
    && (forall i, j :: 0 <= i < j < |s.issued| ==> s.issued[i].Lt(s.issued[j]))
    && (forall i :: 0 <= i < |s.issued| ==> s.observed[i].Lt(s.issued[i]))
  }

  lemma WorldStep(s: World, e: Event)
    requires WorldInv(s) && Unique(s)
    ensures WorldInv(WorldAfter(s, e)) && Unique(WorldAfter(s, e))
  {
    if e.Issue? && s.live.Some? && !(s.live.value.Lt(e.observed) && e.observed.epoch == 0) {
      IncrementMeaning(Max(s.live.value, e.observed));
    }
  }

  /**
   * Across any mix of successful calls, failed writes, crashes and restarts the authority never hands out a
   * token twice, and every token is above all earlier ones and above the observed tail.
   */
  lemma {:induction false} NeverReused(s: World, es: seq<Event>)
    requires s == World(None, None, [], [])
    ensures WorldInv(WorldRun(s, es)) && Unique(WorldRun(s, es))
  {
    if es != [] {
      NeverReused(s, es[..|es| - 1]);
      WorldStep(WorldRun(s, es[..|es| - 1]), es[|es| - 1]);
    }
  }

  /** A running allocator with a working disk refuses only when the version space is spent. */
  lemma RefusesOnlyWhenSpent(a: Allocator, observed: Version)
    requires a.current.epoch != 0
    ensures NextFrom(a, observed, Landed).0.Err? <==> Max(a.current, observed) == Version(MaxU64, MaxU64)
    ensures NextFrom(a, observed, Landed).0.Err? ==> NextFrom(a, observed, Landed).0.error == AuthorityExhausted
    ensures NextFrom(a, observed, Landed).0.Ok? ==>
              var v := NextFrom(a, observed, Landed).0.value;
              && a.current.Lt(v) && observed.Lt(v) && v.epoch != 0
              && NextFrom(a, observed, Landed).1 == Allocator(Some(v), v)
  {
    IncrementMeaning(Max(a.current, observed));
  }
}
