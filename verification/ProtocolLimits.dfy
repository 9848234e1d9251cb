/**
  What the hypotheses are for. For the validators, for each of the two conditions on the
  origin's moves, for purges and for the largest generation there is a run that breaks
  only that hypothesis and completes a response whose bytes belong to no version. A last
  run meets them all while the object changes.
 */
module ProtocolLimits {
  import opened Core
  import opened Meta
  import opened Range
  import opened Protocol
  import opened ProtocolStretches
  import P = Pipeline

  // --------------------------------------------------------------- the rules

  /** All hypotheses but the one about answers that are held. */
  predicate ButForHeldAnswers(o: ObjectId, s: State, a: Action) {
    && IndexAssumed(o, s, a)
    && (a.OriginChange? && a.oid == o && IsFresh(s, o) ==> !MightBeProbed(s, o))
  }

  /** No request for the object has a probe outstanding: sent, or answered and not recorded yet. */
  predicate NoProbeOut(s: State, o: ObjectId) {
    forall r :: r in s.requests && s.requests[r].oid == o ==>
                  !s.requests[r].phase.Fetching? && !s.requests[r].phase.Fetched?
  }

  /** The origin moves the object only while no probe of it is outstanding, whoever else waits to send one. */
  predicate ButForWaitingLookups(o: ObjectId, s: State, a: Action) {
    IndexAssumed(o, s, a) && (a.OriginChange? && a.oid == o ==> NoProbeOut(s, o))
  }

  /** All hypotheses but the one about purges. */
  predicate ButForPurges(o: ObjectId, s: State, a: Action) { a.Purge? || Assumed(o, s, a) }

  /** All hypotheses but the one about the largest generation. */
  predicate ButForTheWrap(o: ObjectId, s: State, a: Action) { a.FetchMismatch? || Assumed(o, s, a) }

  function HeldRule(o: ObjectId): Rule { (s, a) => ButForHeldAnswers(o, s, a) }

  function WaitingRule(o: ObjectId): Rule { (s, a) => ButForWaitingLookups(o, s, a) }

  function PurgeRule(o: ObjectId): Rule { (s, a) => ButForPurges(o, s, a) }

  function WrapRule(o: ObjectId): Rule { (s, a) => ButForTheWrap(o, s, a) }

  ghost function Reached(w: World, rule: Rule): Reach {
    s => exists run :: After(w, run) == Some(s) && KeepsTo(w, rule, run)
  }

  lemma Extend(w: World, rule: Rule, run: seq<Action>, s: State, a: Action)
    requires After(w, run) == Some(s) && KeepsTo(w, rule, run) && Enabled(w, s, a) && rule(s, a)
    ensures After(w, run + [a]) == Some(Apply(w, s, a)) && KeepsTo(w, rule, run + [a])
  {
    assert (run + [a])[..|run|] == run;
  }

  lemma ReachedIsClosed(w: World, rule: Rule)
    requires forall s, a :: Ordinary(a) || LowBump(s, a) ==> rule(s, a)
    ensures Closed(w, rule, Reached(w, rule)) && Reached(w, rule)(Init())
  {
    assert After(w, []) == Some(Init()) && KeepsTo(w, rule, []);
    forall s, a | Reached(w, rule)(s) && Enabled(w, s, a) && rule(s, a)
      ensures Reached(w, rule)(Apply(w, s, a))
    {
      var run :| After(w, run) == Some(s) && KeepsTo(w, rule, run);
      Extend(w, rule, run, s, a);
    }
  }

  // ---------------------------------------------------- an origin that is silent

  /** Without validators a fetch from the next version is accepted into the plan of the last one. */
  lemma SilentScenario(w: World, rule: Rule, reach: Reach, o: ObjectId) returns (t: State)
    requires IsSmall(w, NoTag) && Closed(w, rule, reach) && LetsMove(rule, o) && reach(Init())
    ensures reach(t) && Mixed(w, t, 0)
  {
    var meta := SmallMeta(NoTag, 0, 0);
    var s1 := WarmThenMoved(w, NoTag, rule, reach, o);
    var s2 := Accept(w, NoTag, rule, reach, s1, o, 0, meta);
    t := ServeBoth(w, NoTag, rule, reach, s2, o, 0, meta, 0, 1);
  }

  /**
    Absent validators match, so an origin that sends none can have its versions
    mixed by a run that meets every other hypothesis.
   */
  lemma SilentOriginCanMix(o: ObjectId)
    ensures var w := SmallWorld(NoTag);
            exists run :: After(w, run).Some? && KeepsTo(w, FullRule(o), run) && Mixed(w, After(w, run).value, 0)
  {
    var w := SmallWorld(NoTag);
    ReachedIsClosed(w, FullRule(o));
    var t := SilentScenario(w, FullRule(o), Reached(w, FullRule(o)), o);
    var run :| After(w, run) == Some(t) && KeepsTo(w, FullRule(o), run);
  }

  // ------------------------------------------------------- an origin that moves

  /** Request 0 serves version 0; slice 0 was evicted, and both slices are being fetched. */
  lemma TwoFetches(w: World, rule: Rule, reach: Reach, o: ObjectId) returns (t: State)
    requires IsSmall(w, StrongTag) && Closed(w, rule, reach) && reach(Init())
    ensures var meta := SmallMeta(StrongTag, 0, 0);
            && reach(t)
            && t == State(map[], map[o := meta], map[], map[o := 0], map[0 := (o, Ready(meta))],
                          map[0 := Sending(o, meta, P.Start())],
                          map[0 := Fetch(o, meta, 0, None, false), 1 := Fetch(o, meta, 1, None, false)])
  {
    var meta := SmallMeta(StrongTag, 0, 0);
    var s1 := Warm(w, StrongTag, rule, reach, o);
    var s2 := Lose(w, rule, reach, s1, SliceKey(o, 0, 0));
    assert s2.store == map[];
    var s3 := Send(w, StrongTag, rule, reach, s2, o, 0, meta, 0, 0);
    t := Send(w, StrongTag, rule, reach, s3, o, 0, meta, 1, 1);
  }

  /** Every request is being served. */
  predicate NoLooker(s: State) { forall r :: r in s.requests ==> s.requests[r].phase.Serving? }

  /** The origin moves to version 1, and the fetch of slice 0 finds out. */
  lemma FirstBump(w: World, rule: Rule, reach: Reach, o: ObjectId) returns (t: State)
    requires IsSmall(w, StrongTag) && Closed(w, rule, reach) && reach(Init())
    requires forall s :: NoLooker(s) ==> rule(s, OriginChange(o, 1))
    ensures var meta := SmallMeta(StrongTag, 0, 0);
            && reach(t)
            && t == State(map[o := 1], map[o := Invalidated(meta)], map[], map[], map[0 := (o, Ready(meta))],
                          map[0 := Sending(o, meta, P.Start())], map[1 := Fetch(o, meta, 1, None, false)])
  {
    var meta := SmallMeta(StrongTag, 0, 0);
    var s1 := TwoFetches(w, rule, reach, o);
    var s2 := Move(w, rule, reach, s1, o, 1);
    DistinctTags(meta, 0, 1);
    t := Mismatch(w, StrongTag, rule, reach, s2, o, 0, meta, 0);
    assert t.cellOf == map[] && t.fetches == map[1 := Fetch(o, meta, 1, None, false)];
  }

  /** Request 1 holds the answer of version 1 when the other fetch bumps again and drops its cell. */
  lemma OverlappedProbe(w: World, rule: Rule, reach: Reach, o: ObjectId, s: State, meta: ObjectMeta) returns (t: State)
    requires IsSmall(w, StrongTag) && Closed(w, rule, reach) && reach(s) && meta == SmallMeta(StrongTag, 0, 0)
    requires s.current == map[o := 1] && s.index == map[o := Invalidated(meta)] && s.cellOf == map[]
    requires s.cells.Keys == {0} && s.requests.Keys == {0} && s.fetches == map[1 := Fetch(o, meta, 1, None, false)]
    ensures reach(t)
    ensures o in t.index && t.index[o].stale && t.index[o].generation == 2 && o !in t.cellOf
    ensures 2 !in t.cells && 2 !in t.requests
    ensures 1 in t.requests && t.requests[1] == Request(o, Some(From(1)), Fetched(1, 1))
  {
    var s1 := SendProbe(w, rule, reach, s, o, 1, Some(From(1)), 1);
    var s2 := Answer(w, StrongTag, rule, reach, s1, o, 1, Some(From(1)), 1);
    DistinctTags(meta, 0, 1);
    t := Mismatch(w, StrongTag, rule, reach, s2, o, 1, meta, 1);
    assert t.cells == s1.cells && t.requests == s2.requests;
  }

  /** The origin moves to version 2, and request 2 records it under generation 2. */
  lemma SecondProbe(w: World, rule: Rule, reach: Reach, o: ObjectId, s: State) returns (t: State)
    requires IsSmall(w, StrongTag) && Closed(w, rule, reach) && reach(s)
    requires forall s :: !IsFresh(s, o) ==> rule(s, OriginChange(o, 2))
    requires o in s.index && s.index[o].stale && s.index[o].generation == 2 && o !in s.cellOf
    requires 2 !in s.cells && 2 !in s.requests
    requires 1 in s.requests && s.requests[1] == Request(o, Some(From(1)), Fetched(1, 1))
    ensures reach(t)
    ensures var meta := SmallMeta(StrongTag, 2, 2);
            && o in t.index && t.index[o] == meta
            && SliceKey(o, 2, 0) in t.store && t.store[SliceKey(o, 2, 0)] == [2]
            && 1 in t.requests && t.requests[1] == s.requests[1]
            && 2 in t.requests && t.requests[2] == Sending(o, meta, P.Start())
  {
    var s1 := Move(w, rule, reach, s, o, 2);
    var s2 := Miss(w, rule, reach, s1, o, 2, None);
    t := PlanWhole(w, StrongTag, rule, reach, s2, o, 2, 2);
  }

  /** Then request 1 records the answer it held, under the same generation. */
  lemma LatePut(w: World, rule: Rule, reach: Reach, o: ObjectId, s: State) returns (t: State)
    requires IsSmall(w, StrongTag) && Closed(w, rule, reach) && reach(s)
    requires var meta := SmallMeta(StrongTag, 2, 2);
             && o in s.index && s.index[o] == meta
             && SliceKey(o, 2, 0) in s.store && s.store[SliceKey(o, 2, 0)] == [2]
             && 1 in s.requests && s.requests[1] == Request(o, Some(From(1)), Fetched(1, 1))
             && 2 in s.requests && s.requests[2] == Sending(o, meta, P.Start())
    ensures reach(t) && Mixed(w, t, 2)
  {
    var s1 := Put(w, StrongTag, rule, reach, s, o, 1, Some(From(1)), 1, 1);
    t := ServeBoth(w, StrongTag, rule, reach, s1, o, 2, SmallMeta(StrongTag, 2, 2), 2, 1);
  }

  /**
    With strong tags on every version, a run that lets the origin move while an answer is
    held, and meets every other hypothesis, still completes a mixed response.
   */
  lemma MovingOriginCanMix(o: ObjectId)
    ensures var w := SmallWorld(StrongTag);
            && GoodOrigin(w, o)
            && exists run :: After(w, run).Some? && KeepsTo(w, HeldRule(o), run) && Mixed(w, After(w, run).value, 2)
  {
    var w, rule := SmallWorld(StrongTag), HeldRule(o);
    var reach := Reached(w, rule);
    TaggedIsGood(o);
    ReachedIsClosed(w, rule);
    var s1 := FirstBump(w, rule, reach, o);
    var s2 := OverlappedProbe(w, rule, reach, o, s1, SmallMeta(StrongTag, 0, 0));
    var s3 := SecondProbe(w, rule, reach, o, s2);
    var t := LatePut(w, rule, reach, o, s3);
    var run :| After(w, run) == Some(t) && KeepsTo(w, rule, run);
  }

  // -------------------------------------------------- a lookup that still waits

  /**
    The second fetch bumps but has not dropped the cell yet; request 2 has missed and not
    looked for a cell; request 1 probes version 1 and records its slice 1.
   */
  lemma SlowMiss(w: World, rule: Rule, reach: Reach, o: ObjectId, s: State, meta: ObjectMeta) returns (t: State)
    requires IsSmall(w, StrongTag) && Closed(w, rule, reach) && reach(s) && meta == SmallMeta(StrongTag, 0, 0)
    requires s == State(map[o := 1], map[o := Invalidated(meta)], map[], map[], map[0 := (o, Ready(meta))],
                        map[0 := Sending(o, meta, P.Start())], map[1 := Fetch(o, meta, 1, None, false)])
    ensures reach(t)
    ensures t.index == map[o := Invalidated(Invalidated(meta))] && t.cellOf == map[] && t.current == map[o := 1]
    ensures t.cells == map[0 := (o, Ready(meta))] && t.store == map[]
    ensures t.requests == map[0 := Sending(o, meta, P.Start()), 2 := Request(o, None, NeedCell)]
    ensures t.fetches == map[1 := Fetch(o, meta, 1, Some(1), true)]
  {
    DistinctTags(meta, 0, 1);
    var s1 := Bump(w, StrongTag, rule, reach, s, o, 1, meta, 1);
    t := Miss(w, rule, reach, s1, o, 2, None);
    assert t.index == map[o := Invalidated(Invalidated(meta))];
    assert t.fetches == map[1 := Fetch(o, meta, 1, Some(1), true)];
  }

  lemma QuickProbe(w: World, rule: Rule, reach: Reach, o: ObjectId, s: State, meta: ObjectMeta) returns (t: State)
    requires IsSmall(w, StrongTag) && Closed(w, rule, reach) && reach(s) && meta == SmallMeta(StrongTag, 0, 0)
    requires s.index == map[o := Invalidated(Invalidated(meta))] && s.cellOf == map[] && s.current == map[o := 1]
    requires s.cells == map[0 := (o, Ready(meta))] && s.store == map[]
    requires s.requests == map[0 := Sending(o, meta, P.Start()), 2 := Request(o, None, NeedCell)]
    requires s.fetches == map[1 := Fetch(o, meta, 1, Some(1), true)]
    ensures reach(t)
    ensures o in t.index && t.index[o].generation == 2 && t.cellOf == map[]
    ensures t.cells.Keys == {0, 1} && t.requests.Keys == {0, 1, 2}
    ensures t.requests[0].phase.Serving? && !Waiting(t.requests[1].phase) && t.requests[2] == Request(o, None, NeedCell)
    ensures SliceKey(o, 2, 1) in t.store && t.store[SliceKey(o, 2, 1)] == [1]
  {
    var s1 := QuickPut(w, rule, reach, o, s);
    t := Drop(w, rule, reach, s1, o, 1);
    assert t.cellOf == map[];
  }

  lemma QuickPut(w: World, rule: Rule, reach: Reach, o: ObjectId, s: State) returns (t: State)
    requires IsSmall(w, StrongTag) && Closed(w, rule, reach) && reach(s)
    requires o in s.index && s.index[o].stale && s.index[o].generation == 2 && s.cellOf == map[] && Current(s, o) == 1
    requires 1 !in s.cells && 1 !in s.requests
    ensures reach(t) && t.cellOf == map[o := 1] && t.fetches == s.fetches
    ensures o in t.index && t.index[o].generation == 2
    ensures t.cells.Keys == s.cells.Keys + {1}
    ensures exists q :: !Waiting(q) && t.requests == s.requests[1 := Request(o, Some(From(1)), q)]
    ensures SliceKey(o, 2, 1) in t.store && t.store[SliceKey(o, 2, 1)] == [1]
  {
    var s1 := SendProbe(w, rule, reach, s, o, 1, Some(From(1)), 1);
    t := Probed(w, StrongTag, rule, reach, s1, o, 1, Some(From(1)), 1);
    var q := t.requests[1].phase;
    Overwrite(s.requests, 1, s1.requests[1], Request(o, Some(From(1)), q));
    assert !Waiting(q);
  }

  predicate Waiting(phase: Phase) { phase.Fetching? || phase.Fetched? }

  lemma LateProbe(w: World, rule: Rule, reach: Reach, o: ObjectId, s: State) returns (t: State)
    requires IsSmall(w, StrongTag) && Closed(w, rule, reach) && reach(s)
    requires forall s :: NoProbeOut(s, o) ==> rule(s, OriginChange(o, 2))
    requires o in s.index && s.index[o].generation == 2 && s.cellOf == map[]
    requires s.cells.Keys == {0, 1} && s.requests.Keys == {0, 1, 2}
    requires s.requests[0].phase.Serving? && !Waiting(s.requests[1].phase)
    requires s.requests[2] == Request(o, None, NeedCell)
    requires SliceKey(o, 2, 1) in s.store && s.store[SliceKey(o, 2, 1)] == [1]
    ensures reach(t) && Mixed(w, t, 2)
  {
    assert NoProbeOut(s, o);
    var s1 := Move(w, rule, reach, s, o, 2);
    var s2 := PlanWhole(w, StrongTag, rule, reach, s1, o, 2, 2);
    t := ServeBoth(w, StrongTag, rule, reach, s2, o, 2, SmallMeta(StrongTag, 2, 2), 2, 1);
  }

  /**
    It is not enough that the origin does not move while a probe is outstanding: a request
    that has missed and has yet to probe can mix versions too.
   */
  lemma WaitingLookupCanMix(o: ObjectId)
    ensures var w := SmallWorld(StrongTag);
            && GoodOrigin(w, o)
            && exists run :: After(w, run).Some? && KeepsTo(w, WaitingRule(o), run) && Mixed(w, After(w, run).value, 2)
  {
    var w, rule, meta := SmallWorld(StrongTag), WaitingRule(o), SmallMeta(StrongTag, 0, 0);
    var reach := Reached(w, rule);
    TaggedIsGood(o);
    ReachedIsClosed(w, rule);
    var s1 := FirstBump(w, rule, reach, o);
    var s2 := SlowMiss(w, rule, reach, o, s1, meta);
    var s3 := QuickProbe(w, rule, reach, o, s2, meta);
    var t := LateProbe(w, rule, reach, o, s3);
    var run :| After(w, run) == Some(t) && KeepsTo(w, rule, run);
  }

  // ----------------------------------------------------------------- a purge

  /** A fetch of slice 1 holds version 0 when the object is purged and the origin moves on. */
  lemma Purged(w: World, rule: Rule, reach: Reach, o: ObjectId) returns (t: State)
    requires IsSmall(w, StrongTag) && Closed(w, rule, reach) && LetsMove(rule, o) && reach(Init())
    requires forall s :: rule(s, Purge(o))
    ensures var meta := SmallMeta(StrongTag, 0, 0);
            && reach(t)
            && t == State(map[o := 1], map[], map[], map[o := 0], map[0 := (o, Ready(meta))],
                          map[0 := Sending(o, meta, P.Start())], map[0 := Fetch(o, meta, 1, Some(0), false)])
  {
    var meta := SmallMeta(StrongTag, 0, 0);
    var s1 := HeldFetch(w, rule, reach, o);
    var s2 := Forget(w, rule, reach, s1, o, meta);
    t := MoveQuietly(w, rule, reach, s2, o, 1);
  }

  lemma HeldFetch(w: World, rule: Rule, reach: Reach, o: ObjectId) returns (t: State)
    requires IsSmall(w, StrongTag) && Closed(w, rule, reach) && reach(Init())
    ensures var meta := SmallMeta(StrongTag, 0, 0);
            && reach(t)
            && t == State(map[], map[o := meta], map[SliceKey(o, 0, 0) := [0]], map[o := 0], map[0 := (o, Ready(meta))],
                          map[0 := Sending(o, meta, P.Start())], map[0 := Fetch(o, meta, 1, Some(0), false)])
  {
    var meta := SmallMeta(StrongTag, 0, 0);
    var s1 := Warm(w, StrongTag, rule, reach, o);
    var s2 := Send(w, StrongTag, rule, reach, s1, o, 0, meta, 0, 1);
    t := Respond(w, rule, reach, s2, 0, Fetch(o, meta, 1, None, false));
    assert t.fetches == map[0 := Fetch(o, meta, 1, Some(0), false)];
  }

  /** A fetch of slice 0 finds the change; the unknown object is not bumped, but its cell is dropped. */
  lemma Unbumped(w: World, rule: Rule, reach: Reach, o: ObjectId, s: State, meta: ObjectMeta) returns (t: State)
    requires IsSmall(w, StrongTag) && Closed(w, rule, reach) && reach(s) && meta == SmallMeta(StrongTag, 0, 0)
    requires s == State(map[o := 1], map[], map[], map[o := 0], map[0 := (o, Ready(meta))],
                        map[0 := Sending(o, meta, P.Start())], map[0 := Fetch(o, meta, 1, Some(0), false)])
    ensures reach(t) && t == s.(cellOf := map[])
  {
    var s1 := Send(w, StrongTag, rule, reach, s, o, 0, meta, 1, 0);
    DistinctTags(meta, 0, 1);
    t := Mismatch(w, StrongTag, rule, reach, s1, o, 1, meta, 0);
    assert t.fetches == s.fetches && t.cellOf == map[];
  }

  /** Request 1 records version 1 under generation 0, the old fetch stores version 0 there, and both are served. */
  lemma Resurrected(w: World, rule: Rule, reach: Reach, o: ObjectId, s: State, meta: ObjectMeta) returns (t: State)
    requires IsSmall(w, StrongTag) && Closed(w, rule, reach) && reach(s) && meta == SmallMeta(StrongTag, 0, 0)
    requires s == State(map[o := 1], map[], map[], map[], map[0 := (o, Ready(meta))],
                        map[0 := Sending(o, meta, P.Start())], map[0 := Fetch(o, meta, 1, Some(0), false)])
    ensures reach(t) && Mixed(w, t, 1)
  {
    var s1 := SendProbe(w, rule, reach, s, o, 1, None, 1);
    var s2 := Probed(w, StrongTag, rule, reach, s1, o, 1, None, 1);
    var s3 := KeepSecond(w, StrongTag, rule, reach, s2, 0, Fetch(o, meta, 1, Some(0), false), 0);
    t := ServeBoth(w, StrongTag, rule, reach, s3, o, 1, SmallMeta(StrongTag, 0, 1), 1, 0);
  }

  /** A purge forgets the generation, and a run that meets every other hypothesis completes a mixed response. */
  lemma PurgeCanMix(o: ObjectId)
    ensures var w := SmallWorld(StrongTag);
            && GoodOrigin(w, o)
            && exists run :: After(w, run).Some? && KeepsTo(w, PurgeRule(o), run) && Mixed(w, After(w, run).value, 1)
  {
    var w, rule, meta := SmallWorld(StrongTag), PurgeRule(o), SmallMeta(StrongTag, 0, 0);
    var reach := Reached(w, rule);
    TaggedIsGood(o);
    ReachedIsClosed(w, rule);
    var s1 := Purged(w, rule, reach, o);
    var s2 := Unbumped(w, rule, reach, o, s1, meta);
    var t := Resurrected(w, rule, reach, o, s2, meta);
    var run :| After(w, run) == Some(t) && KeepsTo(w, rule, run);
  }

  // ------------------------------------------------------ the largest generation

  /** Slice 1 of generation 0 holds version 0; the entry is stale at generation `g` and nothing else carries `g`. */
  predicate Worn(s: State, o: ObjectId, g: u32, n: nat) {
    && o in s.index && s.index[o].stale && s.index[o].generation == g
    && (Current(s, o) == 1 || Current(s, o) == 2)
    && o !in s.cellOf && s.fetches == map[]
    && (forall r :: r in s.requests ==> r < n && s.requests[r].phase.Serving?)
    && (forall c :: c in s.cells ==> c < n)
    && SliceKey(o, 0, 1) in s.store && s.store[SliceKey(o, 0, 1)] == [0]
    && (forall k :: k in s.store && k.oid == o && k.generation == g ==> g == 0)
    && (forall k :: k in s.store && k.oid == o ==> k.generation <= g || g == 0)
  }

  /** Version 0 is stored whole, the origin moves to version 1, and the change is found. */
  lemma FirstTurn(w: World, rule: Rule, reach: Reach, o: ObjectId) returns (t: State)
    requires IsSmall(w, StrongTag) && Closed(w, rule, reach) && LetsMove(rule, o) && reach(Init())
    ensures reach(t) && Worn(t, o, 1, 1)
  {
    var meta := SmallMeta(StrongTag, 0, 0);
    var s1 := BothStored(w, rule, reach, o);
    var s2 := MoveQuietly(w, rule, reach, s1, o, 1);
    var s3 := Lose(w, rule, reach, s2, SliceKey(o, 0, 0));
    var s4 := Send(w, StrongTag, rule, reach, s3, o, 0, meta, 0, 0);
    DistinctTags(meta, 0, 1);
    t := Mismatch(w, StrongTag, rule, reach, s4, o, 0, meta, 0);
  }

  lemma BothStored(w: World, rule: Rule, reach: Reach, o: ObjectId) returns (t: State)
    requires IsSmall(w, StrongTag) && Closed(w, rule, reach) && reach(Init())
    ensures var meta := SmallMeta(StrongTag, 0, 0);
            && reach(t)
            && t == State(map[], map[o := meta], map[SliceKey(o, 0, 0) := [0], SliceKey(o, 0, 1) := [0]], map[o := 0],
                          map[0 := (o, Ready(meta))], map[0 := Sending(o, meta, P.Start())], map[])
  {
    var meta := SmallMeta(StrongTag, 0, 0);
    var s1 := Warm(w, StrongTag, rule, reach, o);
    var s2 := Send(w, StrongTag, rule, reach, s1, o, 0, meta, 0, 1);
    t := Accept(w, StrongTag, rule, reach, s2, o, 0, meta);
    assert t.fetches == map[];
  }

  /** A request probes the current version under generation `g`. */
  lemma TurnProbe(w: World, rule: Rule, reach: Reach, o: ObjectId, s: State, g: u32, n: nat) returns (t: State)
    requires IsSmall(w, StrongTag) && Closed(w, rule, reach) && reach(s) && Worn(s, o, g, n)
    ensures reach(t)
    ensures var v := Current(s, o);
            var meta := SmallMeta(StrongTag, g, v);
            t == s.(cellOf := s.cellOf[o := n], cells := s.cells[n := (o, Ready(meta))], index := s.index[o := meta],
                    store := s.store[SliceKey(o, g, 0) := [v % 256]],
                    requests := s.requests[n := Sending(o, meta, P.Start())])
  {
    var v := Current(s, o);
    var meta := SmallMeta(StrongTag, g, v);
    var s1 := Miss(w, rule, reach, s, o, n, None);
    t := PlanWhole(w, StrongTag, rule, reach, s1, o, n, n);
    Overwrite(s.requests, n, s1.requests[n], Sending(o, meta, P.Start()));
  }

  /** The origin moves to the other of versions 1 and 2, and a fetch of slice 1 finds out. */
  lemma TurnBump(w: World, rule: Rule, reach: Reach, o: ObjectId, s: State, g: u32, n: nat, v: Version)
    returns (t: State)
    requires IsSmall(w, StrongTag) && Closed(w, rule, reach) && LetsMove(rule, o) && reach(s)
    requires g < MAX_U32 || forall s, f :: rule(s, FetchMismatch(f))
    requires 0 < g && (v == 1 || v == 2) && s.fetches == map[] && SliceKey(o, g, 1) !in s.store
    requires var meta := SmallMeta(StrongTag, g, v);
             && o in s.index && s.index[o] == meta
             && n in s.requests && s.requests[n] == Sending(o, meta, P.Start())
             && forall r :: r in s.requests ==> s.requests[r].phase.Serving?
    ensures reach(t)
    ensures t == s.(current := s.current[o := 3 - v], index := s.index[o := Invalidated(s.index[o])],
                    cellOf := s.cellOf - {o})
  {
    var meta := SmallMeta(StrongTag, g, v);
    var s1 := MoveQuietly(w, rule, reach, s, o, 3 - v);
    var s2 := Send(w, StrongTag, rule, reach, s1, o, n, meta, 0, 1);
    DistinctTags(meta, v, 3 - v);
    t := Mismatch(w, StrongTag, rule, reach, s2, o, 0, meta, 1);
    assert t.fetches == map[];
  }

  /** One turn: the generation goes up by one, and past the largest it starts again at zero. */
  lemma Turn(w: World, rule: Rule, reach: Reach, o: ObjectId, s: State, g: u32, n: nat) returns (t: State)
    requires IsSmall(w, StrongTag) && Closed(w, rule, reach) && LetsMove(rule, o) && reach(s)
    requires 0 < g && Worn(s, o, g, n)
    requires g < MAX_U32 || forall s, f :: rule(s, FetchMismatch(f))
    ensures reach(t) && Worn(t, o, WrapSucc(g), n + 1)
  {
    var s1 := TurnProbe(w, rule, reach, o, s, g, n);
    t := TurnBump(w, rule, reach, o, s1, g, n, Current(s, o));
  }

  lemma {:induction false} Turns(w: World, rule: Rule, reach: Reach, o: ObjectId, g: u32) returns (t: State)
    requires IsSmall(w, StrongTag) && Closed(w, rule, reach) && LetsMove(rule, o) && reach(Init()) && 0 < g
    ensures reach(t) && Worn(t, o, g, g)
    decreases g
  {
    if g == 1 {
      t := FirstTurn(w, rule, reach, o);
    } else {
      var s := Turns(w, rule, reach, o, g - 1);
      t := Turn(w, rule, reach, o, s, g - 1, g - 1);
    }
  }

  /** Back at generation 0, a new version meets the slice of the first one. */
  lemma WrapScenario(w: World, rule: Rule, reach: Reach, o: ObjectId) returns (t: State, r: nat)
    requires IsSmall(w, StrongTag) && Closed(w, rule, reach) && LetsMove(rule, o) && reach(Init())
    requires forall s, f :: rule(s, FetchMismatch(f))
    ensures reach(t) && Mixed(w, t, r)
  {
    var s1 := Turns(w, rule, reach, o, MAX_U32);
    var s2 := Turn(w, rule, reach, o, s1, MAX_U32, MAX_U32);
    r := MAX_U32 + 1;
    var v := Current(s2, o);
    var s3 := TurnProbe(w, rule, reach, o, s2, 0, r);
    t := ServeBoth(w, StrongTag, rule, reach, s3, o, r, SmallMeta(StrongTag, 0, v), v, 0);
  }

  /** After 2^32 bumps the generation wraps, and a run that meets every other hypothesis completes a mixed response. */
  lemma WrapCanMix(o: ObjectId)
    ensures var w := SmallWorld(StrongTag);
            && GoodOrigin(w, o)
            && exists run, r :: After(w, run).Some? && KeepsTo(w, WrapRule(o), run) && Mixed(w, After(w, run).value, r)
  {
    var w, rule := SmallWorld(StrongTag), WrapRule(o);
    TaggedIsGood(o);
    ReachedIsClosed(w, rule);
    var t, r := WrapScenario(w, rule, Reached(w, rule), o);
    var run :| After(w, run) == Some(t) && KeepsTo(w, rule, run);
    assert Mixed(w, After(w, run).value, r);
  }

  // ------------------------------------------------------------- a good run

  /** The response to `r` is complete and is version `v`, whole. */
  ghost predicate ServedWhole(w: World, s: State, r: nat, v: Version) {
    && r in s.requests
    && s.requests[r].phase.Serving?
    && s.requests[r].phase.pipe.ending.Complete?
    && s.requests[r].phase.wanted == WHOLE
    && Flatten(s.requests[r].phase.pipe.emitted) == w.content(s.requests[r].oid, v)
  }

  /** The origin moves on while request 0 is served; its next fetch finds out, and the index is bumped. */
  lemma Discovered(w: World, rule: Rule, reach: Reach, o: ObjectId) returns (t: State)
    requires IsSmall(w, StrongTag) && Closed(w, rule, reach) && LetsMove(rule, o) && reach(Init())
    ensures reach(t)
    ensures t.current == map[o := 1] && t.index == map[o := Invalidated(SmallMeta(StrongTag, 0, 0))]
    ensures t.cellOf == map[] && t.cells.Keys == {0} && t.requests.Keys == {0} && t.fetches == map[]
    ensures forall k :: k in t.store ==> k.generation == 0
  {
    var meta := SmallMeta(StrongTag, 0, 0);
    var s := WarmThenMoved(w, StrongTag, rule, reach, o);
    DistinctTags(meta, 0, 1);
    t := Mismatch(w, StrongTag, rule, reach, s, o, 0, meta, 1);
    assert t.fetches == map[] && t.cellOf == map[];
  }

  /** Request 1 probes the new version under the new generation, and its second slice is fetched. */
  lemma Replanned(w: World, rule: Rule, reach: Reach, o: ObjectId, s: State) returns (t: State)
    requires IsSmall(w, StrongTag) && Closed(w, rule, reach) && reach(s)
    requires s.current == map[o := 1] && s.index == map[o := Invalidated(SmallMeta(StrongTag, 0, 0))]
    requires s.cellOf == map[] && s.cells.Keys == {0} && s.requests.Keys == {0} && s.fetches == map[]
    requires forall k :: k in s.store ==> k.generation == 0
    ensures reach(t) && t.current == s.current
    ensures SliceKey(o, 1, 0) in t.store && t.store[SliceKey(o, 1, 0)] == [1]
    ensures 1 in t.requests && t.requests[1] == Sending(o, SmallMeta(StrongTag, 1, 1), P.Start())
    ensures t.fetches == map[0 := Fetch(o, SmallMeta(StrongTag, 1, 1), 1, None, false)]
  {
    var s1 := SendProbe(w, rule, reach, s, o, 1, None, 1);
    var s2 := Probed(w, StrongTag, rule, reach, s1, o, 1, None, 1);
    t := Send(w, StrongTag, rule, reach, s2, o, 1, SmallMeta(StrongTag, 1, 1), 0, 1);
  }

  lemma TwoSame(w: World, s: State, o: ObjectId, r: nat, meta: ObjectMeta)
    requires IsSmall(w, StrongTag)
    requires r in s.requests && s.requests[r] == Sending(o, meta, P.Pipe([[1], [1]], [], P.Complete))
    ensures ServedWhole(w, s, r, 1)
  {
    var one: seq<byte> := [1];
    assert [one, one][..1] == [one];
    assert Flatten([one]) == one by { assert [one][..0] == []; }
    assert Flatten([one, one]) == [1, 1];
  }

  lemma RecoveryScenario(w: World, rule: Rule, reach: Reach, o: ObjectId) returns (t: State)
    requires IsSmall(w, StrongTag) && Closed(w, rule, reach) && LetsMove(rule, o) && reach(Init())
    ensures reach(t) && ServedWhole(w, t, 1, 1)
  {
    var meta := SmallMeta(StrongTag, 1, 1);
    var s1 := Discovered(w, rule, reach, o);
    var s2 := Replanned(w, rule, reach, o, s1);
    var s3 := Accept(w, StrongTag, rule, reach, s2, o, 0, meta);
    t := ServeWhole(w, StrongTag, rule, reach, s3, o, 1, meta, 1, 1);
    TwoSame(w, t, o, 1, meta);
  }

  /**
    All hypotheses together can be met by a run in which the origin changes under a
    response: the change is found, the generation is bumped, and the next request is
    served the new version whole.
   */
  lemma ChangeIsFoundAndServed(o: ObjectId)
    ensures var w := SmallWorld(StrongTag);
            && GoodOrigin(w, o)
            && exists run ::
                 After(w, run).Some? && KeepsTo(w, FullRule(o), run) && ServedWhole(w, After(w, run).value, 1, 1)
  {
    var w, rule := SmallWorld(StrongTag), FullRule(o);
    TaggedIsGood(o);
    ReachedIsClosed(w, rule);
    var t := RecoveryScenario(w, rule, Reached(w, rule), o);
    var run :| After(w, run) == Some(t) && KeepsTo(w, rule, run);
  }
}
