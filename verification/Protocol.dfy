/**
  The cache protocol as a step machine: requests look an object up, probe the
  origin, and serve slices; slice fetches run detached; the origin, eviction and
  invalidation interleave with all of them.

  `Apply` is what the code does. `GoodOrigin` and `Assumed` name the hypotheses about
  one object and the steps on it that the code itself does not enforce.
 */
module Protocol {
  import opened Core
  import opened Meta
  import opened Validators
  import opened Range
  import P = Pipeline

  type Version = nat

  /** What each version of each object is, and the two configuration values that matter here. */
  datatype World = World(
    content: (ObjectId, Version) -> seq<byte>,
    validators: (ObjectId, Version) -> Validators,
    sliceSize: SliceSize,
    readahead: nat)

  /** A per-object metadata cell, shared by the requests that hold it. */
  datatype Cell = Empty | Probing | Ready(meta: ObjectMeta)

  datatype Phase =
    | Lookup
    | NeedCell
    | OnCell(cell: nat)
    | Fetching(cell: nat)
    | Fetched(cell: nat, version: Version)
    | Serving(meta: ObjectMeta, wanted: ByteRange, pipe: P.Pipe)
    | Unserved

  datatype Request = Request(oid: ObjectId, spec: Option<RangeSpec>, phase: Phase)

  /**
    A detached slice fetch: the plan's metadata, the slice, and the version that
    answered. `bumped` marks one that has invalidated the index but not yet dropped the cell.
   */
  datatype Fetch = Fetch(oid: ObjectId, meta: ObjectMeta, index: u32, response: Option<Version>, bumped: bool)

  datatype State = State(
    current: map<ObjectId, Version>,
    index: map<ObjectId, ObjectMeta>,
    store: map<SliceKey, seq<byte>>,
    cellOf: map<ObjectId, nat>,
    cells: map<nat, (ObjectId, Cell)>,
    requests: map<nat, Request>,
    fetches: map<nat, Fetch>)

  datatype Action =
    | Arrive(request: nat, oid: ObjectId, spec: Option<RangeSpec>)
    | ReadIndex(request: nat)
    | TakeCell(request: nat, newCell: nat)
    | ReadCell(request: nat)
    | StartProbe(request: nat)
    | ProbeResponse(request: nat)
    | ProbeFail(request: nat)
    | ProbePut(request: nat, key: Str, contentType: Option<Str>, now: u64)
    | MovePipe(request: nat, event: P.Event)
    | SliceHit(request: nat, position: nat)
    | SliceFail(request: nat, position: nat)
    | SendFetch(request: nat, fetch: nat, slice: u32)
    | FetchResponse(fetch: nat)
    | FetchStore(fetch: nat)
    | FetchMismatch(fetch: nat)
    | FetchDrop(fetch: nat)
    | DropCell(fetch: nat)
    | Evict(slot: SliceKey)
    | Touch(oid: ObjectId, now: u64)
    | OriginChange(oid: ObjectId, version: Version)
    | Purge(oid: ObjectId)

  function Init(): State {
    State(map[], map[], map[], map[], map[], map[], map[])
  }

  function Current(s: State, o: ObjectId): Version {
    if o in s.current then s.current[o] else 0
  }

  predicate IsFresh(s: State, o: ObjectId) {
    o in s.index && !s.index[o].stale
  }

  /** The request has found the entry missing or stale, and may still send a probe or put its answer. */
  predicate MightProbe(s: State, request: Request) {
    match request.phase
    case NeedCell => true
    case OnCell(c) => !(c in s.cells && s.cells[c].1.Ready?)
    case Fetching(_) => true
    case Fetched(_, _) => true
    case _ => false
  }

  /** Some request for `o` might still probe. */
  predicate MightBeProbed(s: State, o: ObjectId) {
    exists r :: r in s.requests && s.requests[r].oid == o && MightProbe(s, s.requests[r])
  }

  /** Some request for `o` holds the answer to its probe and has not recorded it yet. */
  predicate HasAnswer(s: State, o: ObjectId) {
    exists r :: r in s.requests && s.requests[r].oid == o && s.requests[r].phase.Fetched?
  }

  // ------------------------------------------------------------- small parts

  /** The slice worth probing with. The index is cast, not saturated, so it wraps. */
  function ProbeIndex(s: SliceSize, spec: Option<RangeSpec>): u32 {
    match spec
    case Some(FromTo(start, _)) => start / s % (MAX_U32 + 1)
    case Some(From(start)) => start / s % (MAX_U32 + 1)
    case _ => 0
  }

  /** The range a request wants of an object, if it can be satisfied. */
  function WantedOf(spec: Option<RangeSpec>, total: u64): Option<ByteRange> {
    match spec
    case None => Whole(total)
    case Some(spec) =>
      match Resolve(spec, total)
      case Ok(range) => Some(range)
      case Err(_) => None
  }

  /** The phase of a request once it holds metadata. */
  function Planned(spec: Option<RangeSpec>, meta: ObjectMeta): Phase {
    match WantedOf(spec, meta.totalLen)
    case None => Unserved
    case Some(wanted) => Serving(meta, wanted, P.Start())
  }

  function MetaValidators(meta: ObjectMeta): Validators {
    Validators(meta.etag, meta.lastModified)
  }

  /** The generation a probe stores under: the index's, or zero for an unknown object. */
  function StoredGeneration(s: State, o: ObjectId): u32 {
    if o in s.index then s.index[o].generation else 0
  }

  function PipeConfig(w: World, wanted: ByteRange): P.Config {
    P.Config(w.sliceSize, wanted, w.readahead)
  }

  function ProbedMeta(w: World, s: State, o: ObjectId, v: Version,
                      key: Str, contentType: Option<Str>, now: u64): ObjectMeta
    requires |w.content(o, v)| <= MAX_U64
  {
    ObjectMeta(key, |w.content(o, v)|, StoredGeneration(s, o),
               w.validators(o, v).etag, w.validators(o, v).lastModified, contentType,
               false, now, now, false)
  }

  /** The plan position a queue position stands for, and the store key of its slice. */
  function SliceKeyAt(w: World, request: Request, position: nat): SliceKey
    requires request.phase.Serving?
    requires |request.phase.pipe.emitted| + position < Plan(request.phase.wanted, w.sliceSize).Count()
  {
    SliceKey(request.oid, request.phase.meta.generation,
             PlanIndex(w.sliceSize, request.phase.wanted, |request.phase.pipe.emitted| + position))
  }

  predicate CanMove(w: World, request: Request, event: P.Event) {
    && request.phase.Serving?
    && PipeConfig(w, request.phase.wanted).Valid()
    && P.Enabled(PipeConfig(w, request.phase.wanted), request.phase.pipe, event)
  }

  function Moved(w: World, request: Request, event: P.Event): Request
    requires CanMove(w, request, event)
  {
    request.(phase := request.phase.(
      pipe := P.Next(PipeConfig(w, request.phase.wanted), request.phase.pipe, event)))
  }

  function WithPhase(s: State, r: nat, phase: Phase): State
    requires r in s.requests
  {
    s.(requests := s.requests[r := s.requests[r].(phase := phase)])
  }

  function WithCell(s: State, r: nat, c: nat, cell: Cell): State
    requires r in s.requests
  {
    s.(cells := s.cells[c := (s.requests[r].oid, cell)])
  }

  // -------------------------------------------------------------- the steps

  predicate Enabled(w: World, s: State, a: Action) {
    match a
    case Arrive(r, _, spec) => r !in s.requests && (spec.Some? ==> WellFormed(spec.value))
    case ReadIndex(r) => r in s.requests && s.requests[r].phase.Lookup?
    case TakeCell(r, c) => r in s.requests && s.requests[r].phase.NeedCell? && c !in s.cells
    case ReadCell(r) =>
      && r in s.requests && s.requests[r].phase.OnCell? && s.requests[r].phase.cell in s.cells
      && s.cells[s.requests[r].phase.cell].1.Ready?
    case StartProbe(r) =>
      && r in s.requests && s.requests[r].phase.OnCell? && s.requests[r].phase.cell in s.cells
      && s.cells[s.requests[r].phase.cell].1.Empty?
    case ProbeResponse(r) =>
      && r in s.requests && s.requests[r].phase.Fetching?
      && var o := s.requests[r].oid;
         && |w.content(o, Current(s, o))| <= MAX_U64
         && SliceStart(ProbeIndex(w.sliceSize, s.requests[r].spec), w.sliceSize) < |w.content(o, Current(s, o))|
    case ProbeFail(r) =>
      && r in s.requests && (s.requests[r].phase.Fetching? || s.requests[r].phase.Fetched?)
    case ProbePut(r, _, _, _) =>
      && r in s.requests && s.requests[r].phase.Fetched?
      && var o := s.requests[r].oid;
         var v := s.requests[r].phase.version;
         && |w.content(o, v)| <= MAX_U64
         && SliceStart(ProbeIndex(w.sliceSize, s.requests[r].spec), w.sliceSize) < |w.content(o, v)|
    case MovePipe(r, event) => r in s.requests && !event.Finish? && CanMove(w, s.requests[r], event)
    case SliceHit(r, j) =>
      && r in s.requests && CanMove(w, s.requests[r], P.Finish(j, None))
      && SliceKeyAt(w, s.requests[r], j) in s.store
    case SliceFail(r, j) => r in s.requests && CanMove(w, s.requests[r], P.Finish(j, None))
    case SendFetch(r, f, slice) =>
      && r in s.requests && s.requests[r].phase.Serving? && f !in s.fetches
      && SliceStart(slice, w.sliceSize) < s.requests[r].phase.meta.totalLen
      && Misses(s, SliceKey(s.requests[r].oid, s.requests[r].phase.meta.generation, slice))
    case FetchResponse(f) => f in s.fetches && !s.fetches[f].bumped && s.fetches[f].response.None?
    case FetchStore(f) => f in s.fetches && !s.fetches[f].bumped && FetchOutcome(w, s.fetches[f]).Some?
    case FetchMismatch(f) => f in s.fetches && !s.fetches[f].bumped && FetchContradicts(w, s.fetches[f])
    case FetchDrop(f) => f in s.fetches && !s.fetches[f].bumped
    case DropCell(f) => f in s.fetches && s.fetches[f].bumped
    case Evict(_) => true
    case Touch(_, _) => true
    case OriginChange(_, _) => true
    case Purge(o) => o in s.index
  }

  /** `get_or_fetch` starts a fetch only for a slice that is neither stored nor already being fetched. */
  predicate Misses(s: State, k: SliceKey) {
    && k !in s.store
    && forall f :: f in s.fetches ==> s.fetches[f].bumped || FetchKey(s.fetches[f]) != k
  }

  function FetchKey(fetch: Fetch): SliceKey {
    SliceKey(fetch.oid, fetch.meta.generation, fetch.index)
  }

  /** The response's validators contradict the plan's. */
  predicate FetchContradicts(w: World, fetch: Fetch) {
    && fetch.response.Some?
    && !Matches(MetaValidators(fetch.meta), w.validators(fetch.oid, fetch.response.value))
  }

  /** The payload a slice fetch stores: it needs matching validators and the exact length. */
  function FetchOutcome(w: World, fetch: Fetch): Option<seq<byte>> {
    if fetch.response.None? || FetchContradicts(w, fetch) then None
    else
      var content := w.content(fetch.oid, fetch.response.value);
      var extent := SliceExtent(fetch.index, w.sliceSize, fetch.meta.totalLen);
      if |content| <= extent.start || extent.end < extent.start then None
      else
        var body := content[extent.start..Min(extent.end + 1, |content|)];
        if |body| == extent.Len() then Some(body) else None
  }

  function Apply(w: World, s: State, a: Action): State
    requires Enabled(w, s, a)
  {
    match a
    case Arrive(r, o, spec) => s.(requests := s.requests[r := Request(o, spec, Lookup)])
    case ReadIndex(r) =>
      var o := s.requests[r].oid;
      WithPhase(s, r, if IsFresh(s, o) then Planned(s.requests[r].spec, s.index[o]) else NeedCell)
    case TakeCell(r, c) =>
      var o := s.requests[r].oid;
      if o in s.cellOf then WithPhase(s, r, OnCell(s.cellOf[o]))
      else WithCell(WithPhase(s, r, OnCell(c)), r, c, Empty).(cellOf := s.cellOf[o := c])
    case ReadCell(r) =>
      WithPhase(s, r, Planned(s.requests[r].spec, s.cells[s.requests[r].phase.cell].1.meta))
    case StartProbe(r) =>
      WithCell(WithPhase(s, r, Fetching(s.requests[r].phase.cell)), r, s.requests[r].phase.cell, Probing)
    case ProbeResponse(r) =>
      WithPhase(s, r, Fetched(s.requests[r].phase.cell, Current(s, s.requests[r].oid)))
    case ProbeFail(r) => WithCell(WithPhase(s, r, Unserved), r, s.requests[r].phase.cell, Empty)
    case ProbePut(r, key, contentType, now) => PutProbe(w, s, r, key, contentType, now)
    case MovePipe(r, event) => s.(requests := s.requests[r := Moved(w, s.requests[r], event)])
    case SliceHit(r, j) =>
      var payload := s.store[SliceKeyAt(w, s.requests[r], j)];
      s.(requests := s.requests[r := Moved(w, s.requests[r], P.Finish(j, Some(payload)))])
    case SliceFail(r, j) => s.(requests := s.requests[r := Moved(w, s.requests[r], P.Finish(j, None))])
    case SendFetch(r, f, slice) =>
      s.(fetches := s.fetches[f := Fetch(s.requests[r].oid, s.requests[r].phase.meta, slice, None, false)])
    case FetchResponse(f) =>
      s.(fetches := s.fetches[f := s.fetches[f].(response := Some(Current(s, s.fetches[f].oid)))])
    case FetchStore(f) =>
      var fetch := s.fetches[f];
      s.(store := s.store[FetchKey(fetch) := FetchOutcome(w, fetch).value],
         fetches := s.fetches - {f})
    case FetchMismatch(f) =>
      Bumped(s, s.fetches[f].oid).(fetches := s.fetches[f := s.fetches[f].(bumped := true)])
    case FetchDrop(f) => s.(fetches := s.fetches - {f})
    case DropCell(f) => s.(cellOf := s.cellOf - {s.fetches[f].oid}, fetches := s.fetches - {f})
    case Evict(key) => s.(store := s.store - {key})
    case Touch(o, now) => if o in s.index then s.(index := s.index[o := Touched(s.index[o], now)]) else s
    case OriginChange(o, v) => s.(current := s.current[o := v])
    case Purge(o) =>
      s.(index := s.index - {o},
         store := map k | k in s.store && !(k.oid == o && k.generation == s.index[o].generation) :: s.store[k])
  }

  /** Store the probed slice under the recorded generation, and record the metadata. */
  function PutProbe(w: World, s: State, r: nat, key: Str, contentType: Option<Str>, now: u64): State
    requires Enabled(w, s, ProbePut(r, key, contentType, now))
  {
    var o := s.requests[r].oid;
    var v := s.requests[r].phase.version;
    var meta := ProbedMeta(w, s, o, v, key, contentType, now);
    var slice := ProbeIndex(w.sliceSize, s.requests[r].spec);
    WithCell(WithPhase(s, r, Planned(s.requests[r].spec, meta)), r, s.requests[r].phase.cell, Ready(meta)).(
      index := s.index[o := meta],
      store := s.store[SliceKey(o, meta.generation, slice) := SlicePayload(w.content(o, v), w.sliceSize, slice)])
  }

  /** `invalidate`, which stores nothing for an object the index does not know. */
  function Bumped(s: State, o: ObjectId): State {
    if o in s.index then s.(index := s.index[o := Invalidated(s.index[o])]) else s
  }

  // -------------------------------------------------------------- the runs

  /** The object's origin: versions are addressable, and matching validators mean equal bytes. */
  ghost predicate GoodOrigin(w: World, o: ObjectId) {
    && 1 <= w.readahead
    && (forall v :: |w.content(o, v)| <= MaxAddressableLen(w.sliceSize))
    && (forall u, v :: Matches(w.validators(o, u), w.validators(o, v)) ==> w.content(o, u) == w.content(o, v))
  }

  /** The object is not purged, and its generation is not bumped past the largest `u32`. */
  predicate IndexAssumed(o: ObjectId, s: State, a: Action) {
    match a
    case FetchMismatch(f) =>
      f in s.fetches && s.fetches[f].oid == o && o in s.index ==> s.index[o].generation < MAX_U32
    case Purge(x) => x != o
    case _ => true
  }

  /**
    The origin does not move the object while the answer to a probe of it is held, nor,
    once the entry is fresh, while a request that found it otherwise might still probe.
   */
  predicate OriginAssumed(o: ObjectId, s: State, a: Action) {
    match a
    case OriginChange(x, _) => x == o ==> !HasAnswer(s, o) && (IsFresh(s, o) ==> !MightBeProbed(s, o))
    case _ => true
  }

  /** Hypotheses about the steps on one object: what must not happen, though the code allows it. */
  predicate Assumed(o: ObjectId, s: State, a: Action) {
    IndexAssumed(o, s, a) && OriginAssumed(o, s, a)
  }

  /** The state after a sequence of actions, if each was enabled. */
  function After(w: World, actions: seq<Action>): Option<State> {
    if actions == [] then Some(Init())
    else
      match After(w, actions[..|actions| - 1])
      case None => None
      case Some(s) =>
        var last := actions[|actions| - 1];
        if Enabled(w, s, last) then Some(Apply(w, s, last)) else None
  }

  /** Which steps a run may take. */
  type Rule = (State, Action) -> bool

  /** Every step of the run keeps to a rule. */
  predicate KeepsTo(w: World, rule: Rule, actions: seq<Action>)
    requires After(w, actions).Some?
  {
    actions != [] ==>
      && KeepsTo(w, rule, actions[..|actions| - 1])
      && rule(After(w, actions[..|actions| - 1]).value, actions[|actions| - 1])
  }

  function IndexRule(o: ObjectId): Rule { (s, a) => IndexAssumed(o, s, a) }

  function FullRule(o: ObjectId): Rule { (s, a) => Assumed(o, s, a) }
}
