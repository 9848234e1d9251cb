/**
  The read-ahead policy: a bounded table of access patterns, against the history of
  requests it has seen. Time is in nanoseconds; each call reads its clock before it takes
  the lock, so the times of successive calls need not increase.
 */
module Readahead {
  import opened Core
  import opened Meta
  import opened Range

  const SEQUENTIAL_THRESHOLD: nat := 3
  const PATTERN_TTL: nat := 60_000_000_000
  const MAX_TRACKED: nat := 1024

  datatype Access = Random | Sequential

  datatype Pattern = Pattern(nextExpected: u32, consecutive: u32, seen: nat)

  type Patterns = map<ObjectId, Pattern>

  datatype Request = Request(oid: ObjectId, first: u32, last: u32, now: nat)

  predicate Expired(pattern: Pattern, now: nat) { SatSub(now, pattern.seen) >= PATTERN_TTL }

  // ------------------------------------------------------------ one request

  function Unexpired(patterns: Patterns, now: nat): Patterns {
    map oid | oid in patterns && !Expired(patterns[oid], now) :: patterns[oid]
  }

  /** `after` is `before` without some of its entries, none of them seen later than one that stays. */
  predicate DropsOldest(before: Patterns, after: Patterns) {
    && after.Keys <= before.Keys
    && (forall oid :: oid in after ==> after[oid] == before[oid])
    && (forall gone, kept :: gone in before && gone !in after && kept in after ==>
                               before[gone].seen <= before[kept].seen)
  }

  /** What making room may do: nothing, dropping the expired, or dropping those and the older half. */
  predicate Trims(before: Patterns, after: Patterns, now: nat) {
    if |before| < MAX_TRACKED then after == before
    else
      var recent := Unexpired(before, now);
      if |recent| < MAX_TRACKED then after == recent
      else DropsOldest(recent, after) && |after| == |recent| - MAX_TRACKED / 2
  }

  /** How a request changes the pattern of its object, and how it is judged. */
  function Updated(known: Option<Pattern>, r: Request): (Pattern, Access) {
    if known.None? || Expired(known.value, r.now) then (Pattern(SatSucc(r.last), 0, r.now), Random)
    else
      var consecutive := if r.first == known.value.nextExpected then SatSucc(known.value.consecutive) else 0;
      (Pattern(SatSucc(r.last), consecutive, r.now), if consecutive >= SEQUENTIAL_THRESHOLD then Sequential else Random)
  }

  function Known(patterns: Patterns, oid: ObjectId): Option<Pattern> {
    if oid in patterns then Some(patterns[oid]) else None
  }

  /** One call of `observe`; which of equally old entries go is left open. */
  ghost predicate Observes(before: Patterns, r: Request, after: Patterns, access: Access) {
    exists trimmed :: Trims(before, trimmed, r.now) && Follows(trimmed, r, after, access)
  }

  predicate Follows(trimmed: Patterns, r: Request, after: Patterns, access: Access) {
    var (pattern, judged) := Updated(Known(trimmed, r.oid), r);
    after == trimmed[r.oid := pattern] && access == judged
  }

  class Policy {
    var patterns: Patterns
    const window: u32

    constructor (window: u32)
      ensures patterns == map[] && this.window == window
    {
      patterns := map[];
      this.window := window;
    }

    /** Removes the older half of a full table, oldest first. */
    method EvictOlderHalf()
      requires |patterns| >= MAX_TRACKED
      modifies this`patterns
      ensures DropsOldest(old(patterns), patterns)
      ensures |patterns| == |old(patterns)| - MAX_TRACKED / 2
    {
      var removed := 0;
      while removed < MAX_TRACKED / 2
        invariant 0 <= removed <= MAX_TRACKED / 2
        invariant DropsOldest(old(patterns), patterns)
        invariant |patterns| == |old(patterns)| - removed
      {
        SomeOldest(patterns);
        var oldest :| IsOldest(patterns, oldest);
        DropOne(old(patterns), patterns, oldest);
        patterns := patterns - {oldest};
        removed := removed + 1;
      }
    }

    /** `observe`: make room, then record the request and judge it. */
    method Observe(r: Request) returns (access: Access)
      modifies this`patterns
      ensures Observes(old(patterns), r, patterns, access)
    {
      if |patterns| >= MAX_TRACKED {
        patterns := Unexpired(patterns, r.now);
        if |patterns| >= MAX_TRACKED {
          EvictOlderHalf();
        }
      }
      assert Trims(old(patterns), patterns, r.now);
      ghost var trimmed := patterns;
      if r.oid !in patterns || SatSub(r.now, patterns[r.oid].seen) >= PATTERN_TTL {
        patterns := patterns[r.oid := Pattern(SatSucc(r.last), 0, r.now)];
        assert Follows(trimmed, r, patterns, Random);
        return Random;
      }
      var entry := patterns[r.oid];
      var consecutive := if r.first == entry.nextExpected then SatSucc(entry.consecutive) else 0;
      patterns := patterns[r.oid := Pattern(SatSucc(r.last), consecutive, r.now)];
      access := if consecutive >= SEQUENTIAL_THRESHOLD then Sequential else Random;
      assert Follows(trimmed, r, patterns, access);
    }
  }

  predicate IsOldest(patterns: Patterns, oid: ObjectId) {
    oid in patterns && forall other :: other in patterns ==> patterns[oid].seen <= patterns[other].seen
  }

  lemma {:induction false} SomeOldest(patterns: Patterns)
    requires |patterns| > 0
    ensures exists oid :: IsOldest(patterns, oid)
    decreases |patterns|
  {
    var oid :| oid in patterns;
    var rest := patterns - {oid};
    assert patterns.Keys == rest.Keys + {oid};
    if |rest| > 0 {
      SomeOldest(rest);
      var best :| IsOldest(rest, best);
      assert IsOldest(patterns, if patterns[best].seen <= patterns[oid].seen then best else oid);
    } else {
      assert rest.Keys == {};
      assert IsOldest(patterns, oid);
    }
  }

  lemma DropOne(before: Patterns, now: Patterns, oldest: ObjectId)
    requires DropsOldest(before, now) && IsOldest(now, oldest)
    ensures DropsOldest(before, now - {oldest}) && |now - {oldest}| == |now| - 1
  {
    assert (now - {oldest}).Keys == now.Keys - {oldest};
    assert now.Keys == (now - {oldest}).Keys + {oldest};
  }

  // ------------------------------------------------------------- the history

  /** The table before and after each request of a history, and how each was judged. */
  ghost predicate Run(history: seq<Request>, tables: seq<Patterns>, judged: seq<Access>) {
    && |tables| == |history| + 1 && |judged| == |history|
    && tables[0] == map[]
    && forall i {:trigger judged[i]} :: 0 <= i < |history| ==> Observes(tables[i], history[i], tables[i + 1], judged[i])
  }

  /** `next` carries on where `previous` ended, soon enough. */
  predicate Continues(previous: Request, next: Request) {
    next.first == SatSucc(previous.last) && SatSub(next.now, previous.now) < PATTERN_TTL
  }

  /** The requests of one object, in order. */
  function RequestsOf(history: seq<Request>, oid: ObjectId): seq<Request> {
    if history == [] then []
    else
      var last := history[|history| - 1];
      var before := RequestsOf(history[..|history| - 1], oid);
      if last.oid == oid then before + [last] else before
  }

  /** The last `n + 1` requests chain. */
  predicate Chained(requests: seq<Request>, n: nat) {
    |requests| > n && forall k :: |requests| - n <= k < |requests| ==> Continues(requests[k - 1], requests[k])
  }

  lemma ChainGrows(requests: seq<Request>, n: nat, next: Request)
    requires requests != [] && Chained(requests, n) && Continues(requests[|requests| - 1], next)
    ensures Chained(requests + [next], n + 1)
  {
    var more := requests + [next];
    forall k | |more| - (n + 1) <= k < |more| ensures Continues(more[k - 1], more[k]) {
      if k < |requests| { assert Continues(requests[k - 1], requests[k]); }
    }
  }

  /** What an entry claims is borne out by the requests of its object. */
  predicate Explained(pattern: Pattern, requests: seq<Request>) {
    && requests != []
    && pattern.nextExpected == SatSucc(requests[|requests| - 1].last)
    && pattern.seen == requests[|requests| - 1].now
    && Chained(requests, pattern.consecutive)
  }

  predicate AllExplained(patterns: Patterns, history: seq<Request>) {
    forall oid :: oid in patterns ==> Explained(patterns[oid], RequestsOf(history, oid))
  }

  lemma UpdateIsExplained(known: Option<Pattern>, requests: seq<Request>, r: Request)
    requires known.Some? ==> Explained(known.value, requests)
    ensures Explained(Updated(known, r).0, requests + [r])
    ensures Updated(known, r).1 == Sequential ==> Chained(requests + [r], SEQUENTIAL_THRESHOLD)
  {
    var pattern := Updated(known, r).0;
    if known.Some? && !Expired(known.value, r.now) && r.first == known.value.nextExpected {
      ChainGrows(requests, known.value.consecutive, r);
      if known.value.consecutive == MAX_U32 { ChainShrinks(requests + [r], MAX_U32 + 1, MAX_U32); }
      if pattern.consecutive >= SEQUENTIAL_THRESHOLD {
        ChainShrinks(requests + [r], pattern.consecutive, SEQUENTIAL_THRESHOLD);
      }
    }
  }

  lemma ChainShrinks(requests: seq<Request>, n: nat, m: nat)
    requires Chained(requests, n) && m <= n
    ensures Chained(requests, m)
  {
  }

  lemma TrimKeepsEntries(before: Patterns, after: Patterns, now: nat)
    requires Trims(before, after, now)
    ensures forall oid :: oid in after ==> oid in before && after[oid] == before[oid]
    ensures |before| <= MAX_TRACKED ==> |after| < MAX_TRACKED
  {
    var recent := Unexpired(before, now);
    if |before| >= MAX_TRACKED {
      SubsetIsSmaller(recent.Keys, before.Keys);
    }
  }

  lemma SubsetIsSmaller(small: set<ObjectId>, large: set<ObjectId>)
    requires small <= large
    ensures |small| <= |large|
  {
    assert large == small + (large - small);
  }

  /** A request for one object leaves the requests of the others as they were. */
  lemma RequestsGrow(history: seq<Request>, r: Request, oid: ObjectId)
    ensures RequestsOf(history + [r], oid) ==
            if oid == r.oid then RequestsOf(history, oid) + [r] else RequestsOf(history, oid)
  {
    assert (history + [r])[..|history|] == history;
  }

  lemma FollowIsExplained(history: seq<Request>, trimmed: Patterns, r: Request, after: Patterns, access: Access)
    requires AllExplained(trimmed, history) && Follows(trimmed, r, after, access)
    ensures AllExplained(after, history + [r])
    ensures access == Sequential ==> Chained(RequestsOf(history + [r], r.oid), SEQUENTIAL_THRESHOLD)
  {
    RequestsGrow(history, r, r.oid);
    UpdateIsExplained(Known(trimmed, r.oid), RequestsOf(history, r.oid), r);
    forall oid | oid in after ensures Explained(after[oid], RequestsOf(history + [r], oid)) {
      RequestsGrow(history, r, oid);
    }
  }

  lemma StepIsExplained(history: seq<Request>, before: Patterns, r: Request, after: Patterns, access: Access)
    requires AllExplained(before, history) && Observes(before, r, after, access)
    ensures AllExplained(after, history + [r])
    ensures access == Sequential ==> Chained(RequestsOf(history + [r], r.oid), SEQUENTIAL_THRESHOLD)
  {
    var trimmed :| Trims(before, trimmed, r.now) && Follows(trimmed, r, after, access);
    TrimKeepsEntries(before, trimmed, r.now);
    assert AllExplained(trimmed, history);
    FollowIsExplained(history, trimmed, r, after, access);
  }

  lemma StepIsBounded(before: Patterns, r: Request, after: Patterns, access: Access)
    requires |before| <= MAX_TRACKED && Observes(before, r, after, access)
    ensures |after| <= MAX_TRACKED
  {
    var trimmed :| Trims(before, trimmed, r.now) && Follows(trimmed, r, after, access);
    TrimKeepsEntries(before, trimmed, r.now);
    SubsetIsSmaller(after.Keys, trimmed.Keys + {r.oid});
  }

  /** The pattern table never exceeds its bound, whatever the objects and times. */
  lemma {:induction false} TableIsBounded(history: seq<Request>, tables: seq<Patterns>, judged: seq<Access>, n: nat)
    requires Run(history, tables, judged) && n <= |history|
    ensures |tables[n]| <= MAX_TRACKED
  {
    if n > 0 {
      TableIsBounded(history, tables, judged, n - 1);
      assert Observes(tables[n - 1], history[n - 1], tables[n], judged[n - 1]);
      StepIsBounded(tables[n - 1], history[n - 1], tables[n], judged[n - 1]);
    }
  }

  lemma RunStep(history: seq<Request>, tables: seq<Patterns>, judged: seq<Access>, i: nat)
    requires Run(history, tables, judged) && i < |history|
    ensures Observes(tables[i], history[i], tables[i + 1], judged[i])
    ensures history[..i] + [history[i]] == history[..i + 1]
  {
    var access := judged[i];
  }

  /** Along every run each entry of the table is borne out by the history so far. */
  lemma {:induction false} RunIsExplained(history: seq<Request>, tables: seq<Patterns>, judged: seq<Access>, n: nat)
    requires Run(history, tables, judged) && n <= |history|
    ensures AllExplained(tables[n], history[..n])
  {
    if n > 0 {
      var i := n - 1;
      RunIsExplained(history, tables, judged, i);
      RunStep(history, tables, judged, i);
      StepIsExplained(history[..i], tables[i], history[i], tables[n], judged[i]);
    }
  }

  /** A request is judged sequential only if it is the fourth of four that chain. */
  lemma SequentialMeansFourInOrder(history: seq<Request>, tables: seq<Patterns>, judged: seq<Access>, n: nat)
    requires Run(history, tables, judged) && n < |history| && judged[n] == Sequential
    ensures Chained(RequestsOf(history[..n + 1], history[n].oid), 3)
  {
    RunIsExplained(history, tables, judged, n);
    RunStep(history, tables, judged, n);
    StepIsExplained(history[..n], tables[n], history[n], tables[n + 1], Sequential);
  }

  /** No entry that a call drops was seen after one that it keeps. */
  lemma DroppedAreOldest(before: Patterns, r: Request, after: Patterns, access: Access, gone: ObjectId, kept: ObjectId)
    requires Observes(before, r, after, access)
    requires gone in before && gone !in after && kept in before && kept in after && kept != r.oid
    ensures before[gone].seen <= before[kept].seen
  {
    var trimmed :| Trims(before, trimmed, r.now) && Follows(trimmed, r, after, access);
    TrimDropsOldest(before, trimmed, r.now);
  }

  lemma TrimDropsOldest(before: Patterns, after: Patterns, now: nat)
    requires Trims(before, after, now)
    ensures DropsOldest(before, after)
  {
    var recent := Unexpired(before, now);
    assert DropsOldest(before, recent);
  }

  // ------------------------------------------- with room, the judgement is exact

  /** The history has kept every entry: each object seen is in the table, with its exact run length. */
  ghost predicate Exact(patterns: Patterns, history: seq<Request>) {
    && AllExplained(patterns, history)
    && (forall oid :: RequestsOf(history, oid) != [] ==> oid in patterns)
    && (forall oid :: oid in patterns ==> IsLongest(RequestsOf(history, oid), patterns[oid].consecutive))
  }

  /** No longer chain ends here, up to the saturation of the counter. */
  predicate IsLongest(requests: seq<Request>, n: u32) {
    n == MAX_U32 || !Chained(requests, n + 1)
  }

  lemma UpdateIsLongest(known: Option<Pattern>, requests: seq<Request>, r: Request)
    requires known.Some? ==> Explained(known.value, requests) && IsLongest(requests, known.value.consecutive)
    requires known.None? ==> requests == []
    ensures IsLongest(requests + [r], Updated(known, r).0.consecutive)
    ensures Updated(known, r).1 == Sequential <==> Chained(requests + [r], SEQUENTIAL_THRESHOLD)
  {
    var n := Updated(known, r).0.consecutive;
    UpdateIsExplained(known, requests, r);
    if n < MAX_U32 && Chained(requests + [r], n + 1) {
      ChainBefore(requests, n, r);
    }
    if Chained(requests + [r], SEQUENTIAL_THRESHOLD) && n < SEQUENTIAL_THRESHOLD {
      ChainShrinks(requests + [r], SEQUENTIAL_THRESHOLD, n + 1);
    }
  }

  /** A chain that ends in `r` is a chain before it, carried on by `r`. */
  lemma ChainBefore(requests: seq<Request>, n: nat, r: Request)
    requires Chained(requests + [r], n + 1)
    ensures requests != [] && Continues(requests[|requests| - 1], r) && Chained(requests, n)
  {
    var more := requests + [r];
    assert Continues(more[|requests| - 1], more[|requests|]);
    forall k | |requests| - n <= k < |requests| ensures Continues(requests[k - 1], requests[k]) {
      assert Continues(more[k - 1], more[k]);
    }
  }

  lemma StepIsExact(history: seq<Request>, before: Patterns, r: Request, after: Patterns, access: Access)
    requires Exact(before, history) && |before| < MAX_TRACKED && Observes(before, r, after, access)
    ensures Exact(after, history + [r])
    ensures access == Sequential <==> Chained(RequestsOf(history + [r], r.oid), 3)
  {
    StepIsExplained(history, before, r, after, access);
    var trimmed :| Trims(before, trimmed, r.now) && Follows(trimmed, r, after, access);
    FollowIsExact(history, before, r, after, access);
  }

  /** The first `n` requests of a run each found room in the table. */
  predicate HadRoom(tables: seq<Patterns>, n: nat)
    requires n <= |tables|
  {
    forall i :: 0 <= i < n ==> |tables[i]| < MAX_TRACKED
  }

  lemma EmptyIsExact()
    ensures Exact(map[], [])
  {
  }

  lemma {:induction false} RunIsExact(history: seq<Request>, tables: seq<Patterns>, judged: seq<Access>, n: nat)
    requires Run(history, tables, judged) && n <= |history| && HadRoom(tables, n)
    ensures Exact(tables[n], history[..n])
  {
    if n > 0 {
      var i := n - 1;
      RunIsExact(history, tables, judged, i);
      RunStep(history, tables, judged, i);
      StepIsExact(history[..i], tables[i], history[i], tables[n], judged[i]);
    } else {
      EmptyIsExact();
      assert history[..0] == [];
    }
  }

  /**
    Over every history in which the table has had room so far, a request is judged
    sequential if and only if it is the fourth of four of its object that chain.
   */
  lemma SequentialIffFourInOrder(history: seq<Request>, tables: seq<Patterns>, judged: seq<Access>, n: nat)
    requires Run(history, tables, judged) && n < |history| && HadRoom(tables, n + 1)
    ensures judged[n] == Sequential <==> Chained(RequestsOf(history[..n + 1], history[n].oid), 3)
  {
    RunIsExact(history, tables, judged, n);
    RunStep(history, tables, judged, n);
    StepIsExact(history[..n], tables[n], history[n], tables[n + 1], judged[n]);
  }

  lemma FollowIsExact(history: seq<Request>, before: Patterns, r: Request, after: Patterns, access: Access)
    requires Exact(before, history) && Follows(before, r, after, access)
    ensures forall oid :: RequestsOf(history + [r], oid) != [] ==> oid in after
    ensures forall oid :: oid in after ==> IsLongest(RequestsOf(history + [r], oid), after[oid].consecutive)
    ensures access == Sequential <==> Chained(RequestsOf(history + [r], r.oid), 3)
  {
    RequestsGrow(history, r, r.oid);
    UpdateIsLongest(Known(before, r.oid), RequestsOf(history, r.oid), r);
    forall oid: ObjectId
      ensures RequestsOf(history + [r], oid) != [] ==> oid in after
      ensures oid in after ==> IsLongest(RequestsOf(history + [r], oid), after[oid].consecutive)
    {
      RequestsGrow(history, r, oid);
    }
  }

  // ------------------------------------------------------------- prefetching

  /** `prefetch`: the half-open range of slice indices to fetch ahead. */
  function Prefetch(window: u32, access: Access, last: u32, lastSlice: u32): (u32, u32) {
    if access != Sequential || window == 0 then (0, 0)
    else
      var start := SatSucc(last);
      var end := Min(Min(start + window, MAX_U32), SatSucc(lastSlice));
      if start >= end then (0, 0) else (start, end)
  }

  /** `maybe_prefetch`'s last slice of an object. */
  function LastSlice(total: u64, s: SliceSize): u32
    requires total > 0
  {
    Min((total - 1) / s, MAX_U32)
  }

  /**
    A slice is prefetched if and only if the access is sequential and the slice is one of
    the `window` that follow the request and lies inside the object, below the last `u32` index.
   */
  lemma PrefetchIsExact(window: u32, access: Access, last: u32, lastSlice: u32, index: u32)
    ensures var (start, end) := Prefetch(window, access, last, lastSlice);
            start <= index < end <==>
            access == Sequential && last < index <= last + window && index <= lastSlice && index < MAX_U32
    ensures var (start, end) := Prefetch(window, access, last, lastSlice); end - start <= window
  {
  }

  /** Slices up to `maybe_prefetch`'s last one start inside the object. */
  lemma PrefetchedSlicesExist(total: u64, s: SliceSize, index: u32)
    requires total > 0 && index <= LastSlice(total, s)
    ensures SliceStart(index, s) < total
  {
    DivisionBrackets(total - 1, s);
    MulMonotone(index, (total - 1) / s, s);
  }
}
