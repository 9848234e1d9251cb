/**
  Stretches of protocol runs on two-byte objects, from which whole runs are put together:
  a request that probes, a slice fetch that is stored or finds a change, a response.
 */
module ProtocolStretches {
  import opened Core
  import opened Meta
  import opened Validators
  import opened Range
  import opened Protocol
  import P = Pipeline

  type Tags = Version -> Option<Str>

  /** Two-byte objects, one byte per slice: version `v` is `[v, v]`. */
  function SmallContent(o: ObjectId, v: Version): seq<byte> {
    [v % 256, v % 256]
  }

  function SmallWorld(tags: Tags): World {
    World(SmallContent, (o: ObjectId, v: Version) => Validators(tags(v), None), 1, 1)
  }

  ghost predicate IsSmall(w: World, tags: Tags) {
    && w.sliceSize == 1 && w.readahead == 1
    && (forall o, v :: w.content(o, v) == SmallContent(o, v))
    && (forall o, v :: w.validators(o, v) == Validators(tags(v), None))
  }

  /** The tags of an origin that never says which version it serves. */
  function NoTag(v: Version): Option<Str> { None }

  /** A distinct strong tag for each of the 256 distinct versions. */
  function StrongTag(v: Version): Option<Str> { Some([v % 256]) }

  lemma TaggedIsGood(o: ObjectId)
    ensures GoodOrigin(SmallWorld(StrongTag), o)
  {
    var w := SmallWorld(StrongTag);
    forall u, v | Matches(w.validators(o, u), w.validators(o, v)) ensures w.content(o, u) == w.content(o, v) {
      assert StrongTag(u) == StrongTag(v);
      assert [u % 256][0] == [v % 256][0];
    }
  }

  /** Slice `i` of version `v` is the byte `v`. */
  lemma SmallSlice(o: ObjectId, v: Version, i: u32)
    requires i < 2
    ensures SliceStart(i, 1) < |SmallContent(o, v)|
    ensures SlicePayload(SmallContent(o, v), 1, i) == [v % 256]
  {
    assert SliceExtent(i, 1, 2) == ByteRange(i, i);
  }

  function SmallMeta(tags: Tags, generation: u32, v: Version): ObjectMeta {
    ObjectMeta([], 2, generation, tags(v), None, None, false, 0, 0, false)
  }

  const WHOLE: ByteRange := ByteRange(0, 1)

  // ---------------------------------------------------------- runs, abstractly

  /** Stands for: some run that keeps to a rule ends in this state. */
  type Reach = State -> bool

  /** Steps that no hypothesis is about. */
  predicate Ordinary(a: Action) { !a.OriginChange? && !a.Purge? && !a.FetchMismatch? }

  /** A bump below the largest generation. */
  predicate LowBump(s: State, a: Action) {
    a.FetchMismatch? && a.fetch in s.fetches &&
    (s.fetches[a.fetch].oid in s.index ==> s.index[s.fetches[a.fetch].oid].generation < MAX_U32)
  }

  ghost predicate Closed(w: World, rule: Rule, reach: Reach) {
    && (forall s, a :: reach(s) && Enabled(w, s, a) && rule(s, a) ==> reach(Apply(w, s, a)))
    && (forall s, a :: Ordinary(a) || LowBump(s, a) ==> rule(s, a))
  }

  /** The rule lets the origin move an object whenever the hypotheses do. */
  ghost predicate LetsMove(rule: Rule, o: ObjectId) {
    forall s, v :: OriginAssumed(o, s, OriginChange(o, v)) ==> rule(s, OriginChange(o, v))
  }

  lemma Do(w: World, rule: Rule, reach: Reach, s: State, a: Action, t: State)
    requires Closed(w, rule, reach) && reach(s) && Enabled(w, s, a) && rule(s, a) && t == Apply(w, s, a)
    ensures reach(t)
  {
  }

  lemma Overwrite<K, V>(m: map<K, V>, k: K, a: V, b: V)
    ensures m[k := a][k := b] == m[k := b]
  {
  }

  // ---------------------------------------------------------- stretches of a run

  /** The origin moves an object. */
  lemma Move(w: World, rule: Rule, reach: Reach, s: State, o: ObjectId, v: Version) returns (t: State)
    requires Closed(w, rule, reach) && reach(s) && rule(s, OriginChange(o, v))
    ensures reach(t) && t == s.(current := s.current[o := v])
  {
    t := s.(current := s.current[o := v]);
    Do(w, rule, reach, s, OriginChange(o, v), t);
  }

  /** The origin moves an object nobody is looking up. */
  lemma MoveQuietly(w: World, rule: Rule, reach: Reach, s: State, o: ObjectId, v: Version) returns (t: State)
    requires Closed(w, rule, reach) && LetsMove(rule, o) && reach(s)
    requires forall r :: r in s.requests ==> s.requests[r].phase.Serving?
    ensures reach(t) && t == s.(current := s.current[o := v])
  {
    assert !MightBeProbed(s, o) && !HasAnswer(s, o);
    t := Move(w, rule, reach, s, o, v);
  }

  /** The store loses a slice. */
  lemma Lose(w: World, rule: Rule, reach: Reach, s: State, k: SliceKey) returns (t: State)
    requires Closed(w, rule, reach) && reach(s)
    ensures reach(t) && t == s.(store := s.store - {k})
  {
    t := s.(store := s.store - {k});
    Do(w, rule, reach, s, Evict(k), t);
  }

  /** An object whose only generation is in the store is purged. */
  lemma Forget(w: World, rule: Rule, reach: Reach, s: State, o: ObjectId, meta: ObjectMeta) returns (t: State)
    requires Closed(w, rule, reach) && reach(s) && rule(s, Purge(o)) && s.index == map[o := meta]
    requires forall k :: k in s.store ==> k.oid == o && k.generation == meta.generation
    ensures reach(t) && t == s.(index := map[], store := map[])
  {
    t := s.(index := map[], store := map[]);
    assert s.index - {o} == map[];
    Do(w, rule, reach, s, Purge(o), t);
  }

  /** A request arrives, finds no fresh entry, and is about to look for the object's cell. */
  lemma Miss(w: World, rule: Rule, reach: Reach, s: State, o: ObjectId, r: nat, spec: Option<RangeSpec>)
      returns (t: State)
    requires Closed(w, rule, reach) && reach(s)
    requires r !in s.requests && !IsFresh(s, o) && (spec.Some? ==> WellFormed(spec.value))
    ensures reach(t)
    ensures t == s.(requests := s.requests[r := Request(o, spec, NeedCell)])
  {
    var s1 := s.(requests := s.requests[r := Request(o, spec, Lookup)]);
    Do(w, rule, reach, s, Arrive(r, o, spec), s1);
    Overwrite(s.requests, r, s1.requests[r], Request(o, spec, NeedCell));
    t := s.(requests := s.requests[r := Request(o, spec, NeedCell)]);
    Do(w, rule, reach, s1, ReadIndex(r), t);
  }

  /** It finds no cell, makes one and sends its probe. */
  lemma ProbeFor(w: World, rule: Rule, reach: Reach, s: State, o: ObjectId, r: nat, spec: Option<RangeSpec>, c: nat)
      returns (t: State)
    requires Closed(w, rule, reach) && reach(s) && o !in s.cellOf && c !in s.cells
    requires r in s.requests && s.requests[r] == Request(o, spec, NeedCell)
    ensures reach(t)
    ensures t == s.(cellOf := s.cellOf[o := c], cells := s.cells[c := (o, Probing)],
                    requests := s.requests[r := Request(o, spec, Fetching(c))])
  {
    var s1 := s.(cellOf := s.cellOf[o := c], cells := s.cells[c := (o, Empty)],
                 requests := s.requests[r := Request(o, spec, OnCell(c))]);
    Do(w, rule, reach, s, TakeCell(r, c), s1);
    Overwrite(s.requests, r, s1.requests[r], Request(o, spec, Fetching(c)));
    Overwrite(s.cells, c, (o, Empty), (o, Probing));
    t := s.(cellOf := s.cellOf[o := c], cells := s.cells[c := (o, Probing)],
            requests := s.requests[r := Request(o, spec, Fetching(c))]);
    Do(w, rule, reach, s1, StartProbe(r), t);
  }

  /** A request that finds no fresh entry and no cell sends its probe. */
  lemma SendProbe(w: World, rule: Rule, reach: Reach, s: State, o: ObjectId, r: nat, spec: Option<RangeSpec>, c: nat)
      returns (t: State)
    requires Closed(w, rule, reach) && reach(s)
    requires r !in s.requests && !IsFresh(s, o) && o !in s.cellOf && c !in s.cells
    requires spec.Some? ==> WellFormed(spec.value)
    ensures reach(t)
    ensures t == s.(cellOf := s.cellOf[o := c], cells := s.cells[c := (o, Probing)],
                    requests := s.requests[r := Request(o, spec, Fetching(c))])
  {
    var s1 := Miss(w, rule, reach, s, o, r, spec);
    Overwrite(s.requests, r, s1.requests[r], Request(o, spec, Fetching(c)));
    t := ProbeFor(w, rule, reach, s1, o, r, spec, c);
  }

  /** The origin answers a probe with its current version. */
  lemma Answer(w: World, tags: Tags, rule: Rule, reach: Reach, s: State, o: ObjectId, r: nat,
               spec: Option<RangeSpec>, c: nat)
      returns (t: State)
    requires IsSmall(w, tags) && Closed(w, rule, reach) && reach(s)
    requires r in s.requests && s.requests[r] == Request(o, spec, Fetching(c)) && ProbeIndex(1, spec) < 2
    ensures reach(t)
    ensures t == s.(requests := s.requests[r := Request(o, spec, Fetched(c, Current(s, o)))])
  {
    t := s.(requests := s.requests[r := Request(o, spec, Fetched(c, Current(s, o)))]);
    Do(w, rule, reach, s, ProbeResponse(r), t);
  }

  /** The probe's metadata and slice are recorded under the generation the index holds now. */
  lemma Put(w: World, tags: Tags, rule: Rule, reach: Reach, s: State, o: ObjectId, r: nat, spec: Option<RangeSpec>,
            c: nat, v: Version)
      returns (t: State)
    requires IsSmall(w, tags) && Closed(w, rule, reach) && reach(s)
    requires r in s.requests && s.requests[r] == Request(o, spec, Fetched(c, v)) && ProbeIndex(1, spec) < 2
    ensures reach(t)
    ensures var meta := SmallMeta(tags, StoredGeneration(s, o), v);
            t == s.(index := s.index[o := meta],
                    store := s.store[SliceKey(o, meta.generation, ProbeIndex(1, spec)) := [v % 256]],
                    cells := s.cells[c := (o, Ready(meta))],
                    requests := s.requests[r := Request(o, spec, Planned(spec, meta))])
  {
    var a := ProbePut(r, [], None, 0);
    SmallSlice(o, v, ProbeIndex(1, spec));
    t := Apply(w, s, a);
    Do(w, rule, reach, s, a, t);
  }

  /** The origin answers a probe, and the answer is recorded. */
  lemma Probed(w: World, tags: Tags, rule: Rule, reach: Reach, s: State, o: ObjectId, r: nat, spec: Option<RangeSpec>,
               c: nat)
      returns (t: State)
    requires IsSmall(w, tags) && Closed(w, rule, reach) && reach(s)
    requires r in s.requests && s.requests[r] == Request(o, spec, Fetching(c)) && ProbeIndex(1, spec) < 2
    ensures reach(t)
    ensures var v := Current(s, o);
            var meta := SmallMeta(tags, StoredGeneration(s, o), v);
            t == s.(index := s.index[o := meta],
                    store := s.store[SliceKey(o, meta.generation, ProbeIndex(1, spec)) := [v % 256]],
                    cells := s.cells[c := (o, Ready(meta))],
                    requests := s.requests[r := Request(o, spec, Planned(spec, meta))])
  {
    var v := Current(s, o);
    var s1 := Answer(w, tags, rule, reach, s, o, r, spec, c);
    Overwrite(s.requests, r, s1.requests[r],
              Request(o, spec, Planned(spec, SmallMeta(tags, StoredGeneration(s, o), v))));
    t := Put(w, tags, rule, reach, s1, o, r, spec, c, v);
  }

  /** A request for the whole object that has missed makes a cell, probes, and is being served. */
  lemma PlanWhole(w: World, tags: Tags, rule: Rule, reach: Reach, s: State, o: ObjectId, r: nat, c: nat)
      returns (t: State)
    requires IsSmall(w, tags) && Closed(w, rule, reach) && reach(s) && o !in s.cellOf && c !in s.cells
    requires r in s.requests && s.requests[r] == Request(o, None, NeedCell)
    ensures reach(t)
    ensures var v := Current(s, o);
            var meta := SmallMeta(tags, StoredGeneration(s, o), v);
            t == s.(index := s.index[o := meta],
                    store := s.store[SliceKey(o, meta.generation, 0) := [v % 256]],
                    cellOf := s.cellOf[o := c], cells := s.cells[c := (o, Ready(meta))],
                    requests := s.requests[r := Sending(o, meta, P.Start())])
  {
    var meta := SmallMeta(tags, StoredGeneration(s, o), Current(s, o));
    var s1 := ProbeFor(w, rule, reach, s, o, r, None, c);
    t := Probed(w, tags, rule, reach, s1, o, r, None, c);
    Overwrite(s.requests, r, s1.requests[r], Sending(o, meta, P.Start()));
    Overwrite(s.cells, c, s1.cells[c], (o, Ready(meta)));
  }

  /** The origin answers a slice fetch with its current version. */
  lemma Respond(w: World, rule: Rule, reach: Reach, s: State, f: nat, fetch: Fetch) returns (t: State)
    requires Closed(w, rule, reach) && reach(s)
    requires f in s.fetches && s.fetches[f] == fetch && !fetch.bumped && fetch.response.None?
    ensures reach(t)
    ensures t == s.(fetches := s.fetches[f := fetch.(response := Some(Current(s, fetch.oid)))])
  {
    t := s.(fetches := s.fetches[f := fetch.(response := Some(Current(s, fetch.oid)))]);
    Do(w, rule, reach, s, FetchResponse(f), t);
  }

  /** A slice fetch finds other validators, and the index moves on. */
  lemma Bump(w: World, tags: Tags, rule: Rule, reach: Reach, s: State, o: ObjectId, f: nat, meta: ObjectMeta, i: u32)
      returns (t: State)
    requires IsSmall(w, tags) && Closed(w, rule, reach) && reach(s)
    requires f in s.fetches && s.fetches[f] == Fetch(o, meta, i, None, false)
    requires !Matches(MetaValidators(meta), Validators(tags(Current(s, o)), None))
    requires (o in s.index ==> s.index[o].generation < MAX_U32) || forall s :: rule(s, FetchMismatch(f))
    ensures reach(t)
    ensures t == Bumped(s, o).(fetches := s.fetches[f := Fetch(o, meta, i, Some(Current(s, o)), true)])
  {
    var answered := Fetch(o, meta, i, Some(Current(s, o)), false);
    var s1 := Respond(w, rule, reach, s, f, s.fetches[f]);
    Overwrite(s.fetches, f, answered, answered.(bumped := true));
    t := Bumped(s, o).(fetches := s.fetches[f := answered.(bumped := true)]);
    assert rule(s1, FetchMismatch(f));
    Do(w, rule, reach, s1, FetchMismatch(f), t);
  }

  /** And the cell is dropped. */
  lemma Drop(w: World, rule: Rule, reach: Reach, s: State, o: ObjectId, f: nat) returns (t: State)
    requires Closed(w, rule, reach) && reach(s) && f in s.fetches && s.fetches[f].oid == o && s.fetches[f].bumped
    ensures reach(t) && t == s.(cellOf := s.cellOf - {o}, fetches := s.fetches - {f})
  {
    t := s.(cellOf := s.cellOf - {o}, fetches := s.fetches - {f});
    Do(w, rule, reach, s, DropCell(f), t);
  }

  lemma Mismatch(w: World, tags: Tags, rule: Rule, reach: Reach, s: State, o: ObjectId, f: nat,
                 meta: ObjectMeta, i: u32)
      returns (t: State)
    requires IsSmall(w, tags) && Closed(w, rule, reach) && reach(s)
    requires f in s.fetches && s.fetches[f] == Fetch(o, meta, i, None, false)
    requires !Matches(MetaValidators(meta), Validators(tags(Current(s, o)), None))
    requires (o in s.index ==> s.index[o].generation < MAX_U32) || forall s :: rule(s, FetchMismatch(f))
    ensures reach(t)
    ensures t == Bumped(s, o).(cellOf := s.cellOf - {o}, fetches := s.fetches - {f})
  {
    var s1 := Bump(w, tags, rule, reach, s, o, f, meta, i);
    t := Drop(w, rule, reach, s1, o, f);
    assert s1.fetches - {f} == s.fetches - {f};
  }

  // ---------------------------------------------------------- serving

  lemma WholePlan()
    ensures Plan(WHOLE, 1) == SlicePlan(0, 1, 1)
  {
  }

  lemma WholeWindows()
    ensures SliceStart(0, 1) <= WHOLE.end && PayloadWindow(0, 1, WHOLE) == (0, 1)
    ensures SliceStart(1, 1) <= WHOLE.end && PayloadWindow(1, 1, WHOLE) == (0, 1)
  {
  }

  lemma WholeConfig(c: P.Config)
    requires c.sliceSize == 1 && c.wanted == WHOLE && c.readahead == 1
    ensures c.Valid() && c.Count() == 2
  {
    WholePlan();
  }

  /** A slice task at position `k` of the whole object takes all of slice `k`. */
  lemma WholeTask(c: P.Config, k: nat, b: byte)
    requires c.sliceSize == 1 && c.wanted == WHOLE && c.Valid() && c.Count() == 2 && k < 2
    ensures PlanIndex(c.sliceSize, c.wanted, k) == k
    ensures P.TaskResult(c, k, Some([b])) == Some([b])
  {
    WholePlan();
    WholeWindows();
    assert [b][0..1] == [b];
  }

  function Sending(o: ObjectId, meta: ObjectMeta, pipe: P.Pipe): Request {
    Request(o, None, Serving(meta, WHOLE, pipe))
  }

  lemma WholeSpawn(c: P.Config, sent: seq<seq<byte>>)
    requires c.wanted == WHOLE && c.readahead == 1 && c.Valid() && c.Count() == 2 && |sent| < 2
    ensures var p := P.Pipe(sent, [], P.Open);
            P.Enabled(c, p, P.Spawn) && P.Next(c, p, P.Spawn) == P.Pipe(sent, [P.Running], P.Open)
  {
  }

  lemma FinishTakes(c: P.Config, p: P.Pipe, e: P.Event, b: byte)
    requires c.Valid() && P.Enabled(c, p, e) && p.queue == [P.Running]
    requires e.Finish? && e.position == 0 && e.payload == Some([b])
    requires |p.emitted| < c.Count() && P.TaskResult(c, |p.emitted|, Some([b])) == Some([b])
    ensures P.Next(c, p, e) == p.(queue := [P.Finished(Some([b]))])
  {
    assert p.queue[0 := P.Finished(Some([b]))] == [P.Finished(Some([b]))];
  }

  lemma WholeFinish(c: P.Config, p: P.Pipe, e: P.Event, b: byte)
    requires c.sliceSize == 1 && c.wanted == WHOLE && c.Valid() && c.Count() == 2
    requires |p.emitted| < 2 && p.queue == [P.Running] && p.ending.Open?
    requires e.Finish? && e.position == 0 && e.payload == Some([b])
    ensures P.Enabled(c, p, e) && P.Next(c, p, e) == p.(queue := [P.Finished(Some([b]))])
  {
    WholeTask(c, |p.emitted|, b);
    FinishTakes(c, p, e, b);
  }

  lemma WholeEmit(c: P.Config, sent: seq<seq<byte>>, b: byte)
    requires c.Valid()
    ensures var p := P.Pipe(sent, [P.Finished(Some([b]))], P.Open);
            P.Enabled(c, p, P.Emit) && P.Next(c, p, P.Emit) == P.Pipe(sent + [[b]], [], P.Open)
  {
  }

  lemma SpawnSlice(w: World, tags: Tags, rule: Rule, reach: Reach, s: State, o: ObjectId, r: nat, meta: ObjectMeta,
                   sent: seq<seq<byte>>) returns (t: State)
    requires IsSmall(w, tags) && Closed(w, rule, reach) && reach(s) && |sent| < 2
    requires r in s.requests && s.requests[r] == Sending(o, meta, P.Pipe(sent, [], P.Open))
    ensures reach(t)
    ensures t == s.(requests := s.requests[r := Sending(o, meta, P.Pipe(sent, [P.Running], P.Open))])
  {
    WholeConfig(PipeConfig(w, WHOLE));
    WholeSpawn(PipeConfig(w, WHOLE), sent);
    t := s.(requests := s.requests[r := Sending(o, meta, P.Pipe(sent, [P.Running], P.Open))]);
    Do(w, rule, reach, s, MovePipe(r, P.Spawn), t);
  }

  lemma HitMoves(w: World, tags: Tags, q: Request, b: byte)
    requires IsSmall(w, tags) && q.phase.Serving? && q.phase.wanted == WHOLE
    requires |q.phase.pipe.emitted| < 2 && q.phase.pipe.queue == [P.Running] && q.phase.pipe.ending.Open?
    ensures CanMove(w, q, P.Finish(0, None)) && CanMove(w, q, P.Finish(0, Some([b])))
    ensures SliceKeyAt(w, q, 0) == SliceKey(q.oid, q.phase.meta.generation, |q.phase.pipe.emitted|)
    ensures Moved(w, q, P.Finish(0, Some([b]))).phase
         == q.phase.(pipe := q.phase.pipe.(queue := [P.Finished(Some([b]))]))
  {
    var c := PipeConfig(w, WHOLE);
    WholeConfig(c);
    WholeFinish(c, q.phase.pipe, P.Finish(0, Some([b])), b);
    WholeTask(c, |q.phase.pipe.emitted|, b);
  }

  lemma HitDoes(w: World, rule: Rule, reach: Reach, s: State, r: nat, q: Request, payload: seq<byte>, t: State)
    requires Closed(w, rule, reach) && reach(s) && r in s.requests && s.requests[r] == q
    requires CanMove(w, q, P.Finish(0, None)) && CanMove(w, q, P.Finish(0, Some(payload)))
    requires SliceKeyAt(w, q, 0) in s.store && s.store[SliceKeyAt(w, q, 0)] == payload
    requires t == s.(requests := s.requests[r := Moved(w, q, P.Finish(0, Some(payload)))])
    ensures reach(t)
  {
    Do(w, rule, reach, s, SliceHit(r, 0), t);
  }

  lemma HitSlice(w: World, tags: Tags, rule: Rule, reach: Reach, s: State, o: ObjectId, r: nat, meta: ObjectMeta,
                 sent: seq<seq<byte>>, b: byte) returns (t: State)
    requires IsSmall(w, tags) && Closed(w, rule, reach) && reach(s) && |sent| < 2
    requires r in s.requests && s.requests[r] == Sending(o, meta, P.Pipe(sent, [P.Running], P.Open))
    requires var k := SliceKey(o, meta.generation, |sent|);
             k in s.store && s.store[k] == [b]
    ensures reach(t)
    ensures t == s.(requests := s.requests[r := Sending(o, meta, P.Pipe(sent, [P.Finished(Some([b]))], P.Open))])
  {
    HitMoves(w, tags, s.requests[r], b);
    t := s.(requests := s.requests[r := Sending(o, meta, P.Pipe(sent, [P.Finished(Some([b]))], P.Open))]);
    HitDoes(w, rule, reach, s, r, s.requests[r], [b], t);
  }

  lemma EmitSlice(w: World, tags: Tags, rule: Rule, reach: Reach, s: State, o: ObjectId, r: nat, meta: ObjectMeta,
                  sent: seq<seq<byte>>, b: byte) returns (t: State)
    requires IsSmall(w, tags) && Closed(w, rule, reach) && reach(s)
    requires r in s.requests && s.requests[r] == Sending(o, meta, P.Pipe(sent, [P.Finished(Some([b]))], P.Open))
    ensures reach(t)
    ensures t == s.(requests := s.requests[r := Sending(o, meta, P.Pipe(sent + [[b]], [], P.Open))])
  {
    WholeConfig(PipeConfig(w, WHOLE));
    WholeEmit(PipeConfig(w, WHOLE), sent, b);
    t := s.(requests := s.requests[r := Sending(o, meta, P.Pipe(sent + [[b]], [], P.Open))]);
    Do(w, rule, reach, s, MovePipe(r, P.Emit), t);
  }

  /** One slice is spawned, found in the store, and emitted. */
  lemma ServeOne(w: World, tags: Tags, rule: Rule, reach: Reach, s: State, o: ObjectId, r: nat, meta: ObjectMeta,
                 sent: seq<seq<byte>>, b: byte) returns (t: State)
    requires IsSmall(w, tags) && Closed(w, rule, reach) && reach(s) && |sent| < 2
    requires r in s.requests && s.requests[r] == Sending(o, meta, P.Pipe(sent, [], P.Open))
    requires var k := SliceKey(o, meta.generation, |sent|);
             k in s.store && s.store[k] == [b]
    ensures reach(t)
    ensures t == s.(requests := s.requests[r := Sending(o, meta, P.Pipe(sent + [[b]], [], P.Open))])
  {
    var s1 := SpawnSlice(w, tags, rule, reach, s, o, r, meta, sent);
    var s2 := HitSlice(w, tags, rule, reach, s1, o, r, meta, sent, b);
    Overwrite(s.requests, r, s1.requests[r], s2.requests[r]);
    t := EmitSlice(w, tags, rule, reach, s2, o, r, meta, sent, b);
    Overwrite(s.requests, r, s2.requests[r], t.requests[r]);
  }

  /** A request for the whole object sends whatever the store holds for its two slices. */
  lemma ServeWhole(w: World, tags: Tags, rule: Rule, reach: Reach, s: State, o: ObjectId, r: nat, meta: ObjectMeta,
                   a: byte, b: byte) returns (t: State)
    requires IsSmall(w, tags) && Closed(w, rule, reach) && reach(s)
    requires r in s.requests && s.requests[r] == Sending(o, meta, P.Start())
    requires var k0, k1 := SliceKey(o, meta.generation, 0), SliceKey(o, meta.generation, 1);
             k0 in s.store && s.store[k0] == [a] && k1 in s.store && s.store[k1] == [b]
    ensures reach(t)
    ensures r in t.requests && t.requests[r] == Sending(o, meta, P.Pipe([[a], [b]], [], P.Complete))
  {
    var s1 := ServeOne(w, tags, rule, reach, s, o, r, meta, [], a);
    assert [] + [[a]] == [[a]];
    var s2 := ServeOne(w, tags, rule, reach, s1, o, r, meta, [[a]], b);
    assert [[a]] + [[b]] == [[a], [b]];
    t := EndResponse(w, tags, rule, reach, s2, o, r, meta, [[a], [b]]);
  }

  lemma EndResponse(w: World, tags: Tags, rule: Rule, reach: Reach, s: State, o: ObjectId, r: nat, meta: ObjectMeta,
                    sent: seq<seq<byte>>) returns (t: State)
    requires IsSmall(w, tags) && Closed(w, rule, reach) && reach(s) && |sent| == 2
    requires r in s.requests && s.requests[r] == Sending(o, meta, P.Pipe(sent, [], P.Open))
    ensures reach(t)
    ensures r in t.requests && t.requests[r] == Sending(o, meta, P.Pipe(sent, [], P.Complete))
  {
    WholeConfig(PipeConfig(w, WHOLE));
    t := s.(requests := s.requests[r := Sending(o, meta, P.Pipe(sent, [], P.Complete))]);
    Do(w, rule, reach, s, MovePipe(r, P.End), t);
  }

  // ---------------------------------------------------------- slice fetches

  /** A fetch of a slice that a request being served does not find. */
  lemma Send(w: World, tags: Tags, rule: Rule, reach: Reach, s: State, o: ObjectId, r: nat, meta: ObjectMeta,
             f: nat, i: u32)
      returns (t: State)
    requires IsSmall(w, tags) && Closed(w, rule, reach) && reach(s) && meta.totalLen == 2 && i < 2
    requires r in s.requests && s.requests[r] == Sending(o, meta, P.Start()) && f !in s.fetches
    requires Misses(s, SliceKey(o, meta.generation, i))
    ensures reach(t)
    ensures t == s.(fetches := s.fetches[f := Fetch(o, meta, i, None, false)])
  {
    t := s.(fetches := s.fetches[f := Fetch(o, meta, i, None, false)]);
    SmallSlice(o, 0, i);
    Do(w, rule, reach, s, SendFetch(r, f, i), t);
  }

  /** From an empty cache: request 0 probes version 0 and starts to serve it. */
  lemma Warm(w: World, tags: Tags, rule: Rule, reach: Reach, o: ObjectId) returns (t: State)
    requires IsSmall(w, tags) && Closed(w, rule, reach) && reach(Init())
    ensures reach(t)
    ensures var meta := SmallMeta(tags, 0, 0);
            t == State(map[], map[o := meta], map[SliceKey(o, 0, 0) := [0]], map[o := 0],
                       map[0 := (o, Ready(meta))], map[0 := Sending(o, meta, P.Start())], map[])
  {
    var s1 := SendProbe(w, rule, reach, Init(), o, 0, None, 0);
    t := Probed(w, tags, rule, reach, s1, o, 0, None, 0);
    var meta := SmallMeta(tags, 0, 0);
    assert t.requests == map[0 := Sending(o, meta, P.Start())];
    assert t.cells == map[0 := (o, Ready(meta))];
  }

  /** Request 0 is served version 0 when the origin moves to version 1, and the second slice is being fetched. */
  lemma WarmThenMoved(w: World, tags: Tags, rule: Rule, reach: Reach, o: ObjectId) returns (t: State)
    requires IsSmall(w, tags) && Closed(w, rule, reach) && LetsMove(rule, o) && reach(Init())
    ensures reach(t)
    ensures var meta := SmallMeta(tags, 0, 0);
            t == State(map[o := 1], map[o := meta], map[SliceKey(o, 0, 0) := [0]], map[o := 0],
                       map[0 := (o, Ready(meta))], map[0 := Sending(o, meta, P.Start())],
                       map[0 := Fetch(o, meta, 1, None, false)])
  {
    var s1 := Warm(w, tags, rule, reach, o);
    var s2 := MoveQuietly(w, rule, reach, s1, o, 1);
    t := Send(w, tags, rule, reach, s2, o, 0, SmallMeta(tags, 0, 0), 0, 1);
    assert t.fetches == map[0 := Fetch(o, SmallMeta(tags, 0, 0), 1, None, false)];
  }

  /** A fetch whose outcome is a payload stores it. */
  lemma Keep(w: World, rule: Rule, reach: Reach, s: State, f: nat, fetch: Fetch, payload: seq<byte>) returns (t: State)
    requires Closed(w, rule, reach) && reach(s)
    requires f in s.fetches && s.fetches[f] == fetch && !fetch.bumped && FetchOutcome(w, fetch) == Some(payload)
    ensures reach(t)
    ensures t == s.(fetches := s.fetches - {f}, store := s.store[FetchKey(fetch) := payload])
  {
    t := s.(fetches := s.fetches - {f}, store := s.store[FetchKey(fetch) := payload]);
    Do(w, rule, reach, s, FetchStore(f), t);
  }

  lemma AcceptedSlice(w: World, tags: Tags, fetch: Fetch)
    requires IsSmall(w, tags) && fetch.response.Some? && fetch.index == 1 && fetch.meta.totalLen == 2
    requires Matches(MetaValidators(fetch.meta), Validators(tags(fetch.response.value), None))
    ensures FetchOutcome(w, fetch) == Some([fetch.response.value % 256])
  {
    assert SliceExtent(1, 1, 2) == ByteRange(1, 1);
    assert SmallContent(fetch.oid, fetch.response.value)[1..2] == [fetch.response.value % 256];
  }

  /** An answered fetch of the second slice is stored if its validators match. */
  lemma KeepSecond(w: World, tags: Tags, rule: Rule, reach: Reach, s: State, f: nat, fetch: Fetch, v: Version)
      returns (t: State)
    requires IsSmall(w, tags) && Closed(w, rule, reach) && reach(s)
    requires f in s.fetches && s.fetches[f] == fetch && !fetch.bumped
    requires fetch.response == Some(v) && fetch.index == 1 && fetch.meta.totalLen == 2
    requires Matches(MetaValidators(fetch.meta), Validators(tags(v), None))
    ensures reach(t)
    ensures t == s.(fetches := s.fetches - {f},
                    store := s.store[SliceKey(fetch.oid, fetch.meta.generation, 1) := [v % 256]])
  {
    AcceptedSlice(w, tags, fetch);
    t := Keep(w, rule, reach, s, f, fetch, [v % 256]);
  }

  /** A fetch of the second slice, answered with matching validators, is stored under the plan's generation. */
  lemma Accept(w: World, tags: Tags, rule: Rule, reach: Reach, s: State, o: ObjectId, f: nat, meta: ObjectMeta)
      returns (t: State)
    requires IsSmall(w, tags) && Closed(w, rule, reach) && reach(s) && meta.totalLen == 2
    requires Matches(MetaValidators(meta), Validators(tags(Current(s, o)), None))
    requires f in s.fetches && s.fetches[f] == Fetch(o, meta, 1, None, false)
    ensures reach(t)
    ensures t == s.(fetches := s.fetches - {f},
                    store := s.store[SliceKey(o, meta.generation, 1) := [Current(s, o) % 256]])
  {
    var v, answered := Current(s, o), Fetch(o, meta, 1, Some(Current(s, o)), false);
    var s1 := Respond(w, rule, reach, s, f, s.fetches[f]);
    t := KeepSecond(w, tags, rule, reach, s1, f, answered, v);
    assert s1.fetches - {f} == s.fetches - {f};
  }

  /** The response is complete and its body is the requested range of no version. */
  ghost predicate Mixed(w: World, s: State, r: nat) {
    && r in s.requests
    && s.requests[r].phase.Serving?
    && s.requests[r].phase.pipe.ending.Complete?
    && s.requests[r].phase.wanted == WHOLE
    && forall v :: Flatten(s.requests[r].phase.pipe.emitted) != w.content(s.requests[r].oid, v)
  }

  lemma TwoBytes(w: World, tags: Tags, s: State, o: ObjectId, r: nat, meta: ObjectMeta, a: byte, b: byte)
    requires IsSmall(w, tags) && a != b
    requires r in s.requests && s.requests[r] == Sending(o, meta, P.Pipe([[a], [b]], [], P.Complete))
    ensures Mixed(w, s, r)
  {
    assert [[a], [b]][..1] == [[a]];
    assert Flatten([[a]]) == [a] by { assert [[a]][..0] == []; }
    assert Flatten([[a], [b]]) == [a, b];
  }

  /** Two resident slices of different versions are served as one complete body. */
  lemma ServeBoth(w: World, tags: Tags, rule: Rule, reach: Reach, s: State, o: ObjectId, r: nat, meta: ObjectMeta,
                  a: byte, b: byte) returns (t: State)
    requires IsSmall(w, tags) && Closed(w, rule, reach) && reach(s) && a != b
    requires r in s.requests && s.requests[r] == Sending(o, meta, P.Start())
    requires var k0, k1 := SliceKey(o, meta.generation, 0), SliceKey(o, meta.generation, 1);
             k0 in s.store && s.store[k0] == [a] && k1 in s.store && s.store[k1] == [b]
    ensures reach(t) && Mixed(w, t, r)
  {
    t := ServeWhole(w, tags, rule, reach, s, o, r, meta, a, b);
    TwoBytes(w, tags, t, o, r, meta, a, b);
  }

  lemma DistinctTags(meta: ObjectMeta, u: Version, v: Version)
    requires meta == SmallMeta(StrongTag, meta.generation, u) && u % 256 != v % 256
    ensures !Matches(MetaValidators(meta), Validators(StrongTag(v), None))
  {
    assert [u % 256][0] != [v % 256][0];
  }
}
