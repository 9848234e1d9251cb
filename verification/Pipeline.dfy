/**
  The ordered, bounded body pipeline: one detached task per planned slice, at most
  `readahead` of them outstanding, results emitted in plan order.
 */
module Pipeline {
  import opened Core
  import opened Range

  datatype Config = Config(sliceSize: SliceSize, wanted: ByteRange, readahead: nat) {
    /** What the orchestrator guarantees: a valid addressable range and a window of at least one. */
    predicate Valid() {
      && wanted.Valid()
      && wanted.end < MaxAddressableLen(sliceSize)
      && 1 <= readahead
    }

    function Count(): int { Plan(wanted, sliceSize).Count() }
  }

  /** One element of the `buffered` queue: a slice task, and its result once it has one. */
  datatype Slot = Running | Finished(result: Option<seq<byte>>)

  datatype Ending = Open | Complete | Failed

  /** `emitted` holds the frames already handed to the client; `queue` the slice tasks behind. */
  datatype Pipe = Pipe(emitted: seq<seq<byte>>, queue: seq<Slot>, ending: Ending) {
    function Spawned(): nat { |emitted| + |queue| }
  }

  datatype Event =
    | Spawn
    | Finish(position: nat, payload: Option<seq<byte>>)
    | Emit
    | End

  function Start(): Pipe {
    Pipe([], [], Open)
  }

  /** `payload_window`: the wanted part of a slice, or a refusal when the slice is too short. */
  function CutWindow(payload: seq<byte>, window: (u64, u64)): Option<seq<byte>> {
    if window.0 > window.1 || window.1 > |payload| then None
    else Some(payload[window.0..window.1])
  }

  /** The result of a slice task at plan position `k`, given what fetching the slice returned. */
  function TaskResult(c: Config, k: nat, payload: Option<seq<byte>>): Option<seq<byte>>
    requires c.Valid() && k < c.Count()
  {
    var index := PlanIndex(c.sliceSize, c.wanted, k);
    PlannedSliceStartsInRange(index, c.sliceSize, c.wanted);
    match payload
    case None => None
    case Some(bytes) => CutWindow(bytes, PayloadWindow(index, c.sliceSize, c.wanted))
  }

  predicate Enabled(c: Config, p: Pipe, event: Event)
    requires c.Valid()
  {
    && p.ending.Open?
    && match event
       case Spawn => p.Spawned() < c.Count() && |p.queue| < c.readahead
       case Finish(j, _) => j < |p.queue| && p.queue[j].Running? && |p.emitted| + j < c.Count()
       case Emit => p.queue != [] && p.queue[0].Finished?
       case End => p.queue == [] && p.Spawned() == c.Count()
  }

  function Next(c: Config, p: Pipe, event: Event): Pipe
    requires c.Valid() && Enabled(c, p, event)
  {
    match event
    case Spawn => p.(queue := p.queue + [Running])
    case Finish(j, payload) =>
      p.(queue := p.queue[j := Finished(TaskResult(c, |p.emitted| + j, payload))])
    case Emit =>
      (match p.queue[0].result
       case None => p.(ending := Failed)
       case Some(bytes) => p.(emitted := p.emitted + [bytes], queue := p.queue[1..]))
    case End => p.(ending := Complete)
  }

  /** A slice task returns its slice of `content`, or fails. */
  predicate Honest(c: Config, content: seq<byte>, p: Pipe, event: Event)
    requires c.Valid() && c.wanted.end < |content| <= MAX_U64
    requires Enabled(c, p, event)
  {
    event.Finish? && event.payload.Some? ==>
      var index := PlanIndex(c.sliceSize, c.wanted, |p.emitted| + event.position);
      WindowInsideExtent(index, c.sliceSize, c.wanted, |content|);
      event.payload.value == SlicePayload(content, c.sliceSize, index)
  }

  // ------------------------------------------------------------- invariants

  /** Every result so far, emitted or queued, is acceptable at its plan position. */
  predicate AllResults(p: Pipe, ok: (nat, seq<byte>) -> bool) {
    && (forall k :: 0 <= k < |p.emitted| ==> ok(k, p.emitted[k]))
    && (forall j :: 0 <= j < |p.queue| && p.queue[j].Finished? && p.queue[j].result.Some? ==>
          ok(|p.emitted| + j, p.queue[j].result.value))
  }

  lemma EmitKeepsResults(p: Pipe, ok: (nat, seq<byte>) -> bool)
    requires AllResults(p, ok)
    requires p.queue != [] && p.queue[0].Finished? && p.queue[0].result.Some?
    ensures AllResults(p.(emitted := p.emitted + [p.queue[0].result.value], queue := p.queue[1..]), ok)
  {
    var q := p.(emitted := p.emitted + [p.queue[0].result.value], queue := p.queue[1..]);
    assert forall j :: 0 <= j < |q.queue| ==> q.queue[j] == p.queue[j + 1];
  }

  lemma FinishKeepsResults(p: Pipe, j: nat, result: Option<seq<byte>>, ok: (nat, seq<byte>) -> bool)
    requires AllResults(p, ok) && j < |p.queue|
    requires result.Some? ==> ok(|p.emitted| + j, result.value)
    ensures AllResults(p.(queue := p.queue[j := Finished(result)]), ok)
  {
  }

  lemma NextKeepsResults(c: Config, p: Pipe, event: Event, ok: (nat, seq<byte>) -> bool)
    requires c.Valid() && AllResults(p, ok) && Enabled(c, p, event)
    requires event.Finish? ==>
               var result := TaskResult(c, |p.emitted| + event.position, event.payload);
               result.Some? ==> ok(|p.emitted| + event.position, result.value)
    ensures AllResults(Next(c, p, event), ok)
  {
    match event {
      case Spawn =>
      case Finish(j, payload) =>
        FinishKeepsResults(p, j, TaskResult(c, |p.emitted| + j, payload), ok);
      case Emit =>
        if p.queue[0].result.Some? { EmitKeepsResults(p, ok); }
      case End =>
    }
  }

  /** Holds of every reachable pipe, whatever the slice tasks return. */
  predicate Shape(c: Config, p: Pipe)
    requires c.Valid()
  {
    && p.Spawned() <= c.Count()
    && |p.queue| <= c.readahead
    && (p.ending.Complete? ==> |p.emitted| == c.Count())
  }

  /** Every result has the length of its window. */
  predicate Sized(c: Config, p: Pipe)
    requires c.Valid()
  {
    AllResults(p, (k: nat, bytes: seq<byte>) => HasWindowLength(c, k, bytes))
  }

  predicate HasWindowLength(c: Config, k: nat, bytes: seq<byte>)
    requires c.Valid()
  {
    && k < c.Count()
    && |bytes| == Cut(c.sliceSize, c.wanted, k + 1) - Cut(c.sliceSize, c.wanted, k)
  }

  /** Every result is the right piece of `content`. */
  predicate Faithful(c: Config, content: seq<byte>, p: Pipe)
    requires c.Valid() && c.wanted.end < |content| <= MAX_U64
  {
    AllResults(p, (k: nat, bytes: seq<byte>) => IsPiece(c, content, k, bytes))
  }

  predicate IsPiece(c: Config, content: seq<byte>, k: nat, bytes: seq<byte>)
    requires c.Valid() && c.wanted.end < |content| <= MAX_U64
  {
    k < c.Count() && bytes == Piece(content, c.sliceSize, c.wanted, PlanIndex(c.sliceSize, c.wanted, k))
  }

  lemma ResultHasWindowLength(c: Config, k: nat, payload: Option<seq<byte>>)
    requires c.Valid() && k < c.Count()
    ensures TaskResult(c, k, payload).Some? ==>
              HasWindowLength(c, k, TaskResult(c, k, payload).value)
  {
    WindowRunsBetweenCuts(c.sliceSize, c.wanted, k);
  }

  lemma ShapePreserved(c: Config, p: Pipe, event: Event)
    requires c.Valid() && Shape(c, p) && Sized(c, p) && Enabled(c, p, event)
    ensures Shape(c, Next(c, p, event)) && Sized(c, Next(c, p, event))
  {
    if event.Finish? {
      ResultHasWindowLength(c, |p.emitted| + event.position, event.payload);
    }
    NextKeepsResults(c, p, event, (k: nat, bytes: seq<byte>) => HasWindowLength(c, k, bytes));
  }

  lemma FaithfulPreserved(c: Config, content: seq<byte>, p: Pipe, event: Event)
    requires c.Valid() && c.wanted.end < |content| <= MAX_U64
    requires Faithful(c, content, p) && Enabled(c, p, event) && Honest(c, content, p, event)
    ensures Faithful(c, content, Next(c, p, event))
  {
    if event.Finish? && event.payload.Some? {
      var k := |p.emitted| + event.position;
      WindowInsideExtent(PlanIndex(c.sliceSize, c.wanted, k), c.sliceSize, c.wanted, |content|);
    }
    NextKeepsResults(c, p, event, (k: nat, bytes: seq<byte>) => IsPiece(c, content, k, bytes));
  }

  // -------------------------------------------------------------- every run

  /** The pipe after a sequence of events, if each was enabled when it happened. */
  function After(c: Config, events: seq<Event>): Option<Pipe>
    requires c.Valid()
  {
    if events == [] then Some(Start())
    else
      match After(c, events[..|events| - 1])
      case None => None
      case Some(p) =>
        var last := events[|events| - 1];
        if Enabled(c, p, last) then Some(Next(c, p, last)) else None
  }

  /** Every slice task of the run returned the right slice of `content`, or failed. */
  predicate AllHonest(c: Config, content: seq<byte>, events: seq<Event>)
    requires c.Valid() && c.wanted.end < |content| <= MAX_U64
    requires After(c, events).Some?
  {
    events != [] ==>
      && AllHonest(c, content, events[..|events| - 1])
      && Honest(c, content, After(c, events[..|events| - 1]).value, events[|events| - 1])
  }

  lemma {:induction false} ReachableShape(c: Config, events: seq<Event>)
    requires c.Valid() && After(c, events).Some?
    ensures Shape(c, After(c, events).value) && Sized(c, After(c, events).value)
  {
    if events != [] {
      var before := events[..|events| - 1];
      ReachableShape(c, before);
      ShapePreserved(c, After(c, before).value, events[|events| - 1]);
    }
  }

  lemma {:induction false} ReachableFaithful(c: Config, content: seq<byte>, events: seq<Event>)
    requires c.Valid() && c.wanted.end < |content| <= MAX_U64
    requires After(c, events).Some? && AllHonest(c, content, events)
    ensures Faithful(c, content, After(c, events).value)
  {
    if events != [] {
      var before := events[..|events| - 1];
      ReachableFaithful(c, content, before);
      FaithfulPreserved(c, content, After(c, before).value, events[|events| - 1]);
    }
  }

  /**
    In every order in which slice tasks finish or fail, the body sent so far is a
    prefix of the requested bytes, it is all of them once the stream ends without an
    error, and no more than `readahead` slices are outstanding.
   */
  lemma BodyIsTheRequestedRange(c: Config, content: seq<byte>, events: seq<Event>)
    requires c.Valid() && c.wanted.end < |content| <= MAX_U64
    requires After(c, events).Some? && AllHonest(c, content, events)
    ensures var p := After(c, events).value;
            && Flatten(p.emitted) <= content[c.wanted.start..c.wanted.end + 1]
            && (p.ending.Complete? ==> Flatten(p.emitted) == content[c.wanted.start..c.wanted.end + 1])
            && |p.queue| <= c.readahead
  {
    ReachableShape(c, events);
    ReachableFaithful(c, content, events);
    FaithfulBody(c, content, After(c, events).value);
  }

  /** What `Shape` and `Faithful` say about the bytes sent. */
  lemma FaithfulBody(c: Config, content: seq<byte>, p: Pipe)
    requires c.Valid() && c.wanted.end < |content| <= MAX_U64
    requires Shape(c, p) && Faithful(c, content, p)
    ensures Flatten(p.emitted) <= content[c.wanted.start..c.wanted.end + 1]
    ensures p.ending.Complete? ==> Flatten(p.emitted) == content[c.wanted.start..c.wanted.end + 1]
  {
    var pieces := PlanPieces(content, c.sliceSize, c.wanted);
    assert p.emitted == pieces[..|p.emitted|];
    LeadingPiecesAreContent(content, c.sliceSize, c.wanted, |p.emitted|);
    if p.ending.Complete? {
      CompleteIsAllPieces(c, content, p);
      PlanTilesTheRange(content, c.sliceSize, c.wanted);
    }
  }

  lemma CompleteIsAllPieces(c: Config, content: seq<byte>, p: Pipe)
    requires c.Valid() && c.wanted.end < |content| <= MAX_U64
    requires Shape(c, p) && Faithful(c, content, p) && p.ending.Complete?
    ensures p.emitted == PlanPieces(content, c.sliceSize, c.wanted)
  {
  }

  lemma {:induction false} FlattenLength(c: Config, emitted: seq<seq<byte>>)
    requires c.Valid() && |emitted| <= c.Count()
    requires forall k :: 0 <= k < |emitted| ==> HasWindowLength(c, k, emitted[k])
    ensures |Flatten(emitted)| == Cut(c.sliceSize, c.wanted, |emitted|) - c.wanted.start
  {
    if emitted != [] {
      FlattenLength(c, emitted[..|emitted| - 1]);
    }
  }

  /**
    Whatever the store hands back, a body that ends without an error has exactly the
    length promised in `Content-Length`: a slice that is too short fails the response
    and never shortens it.
   */
  lemma CompleteBodyHasDeclaredLength(c: Config, events: seq<Event>)
    requires c.Valid() && After(c, events).Some?
    requires After(c, events).value.ending.Complete?
    ensures |Flatten(After(c, events).value.emitted)| == c.wanted.Len()
  {
    ReachableShape(c, events);
    FlattenLength(c, After(c, events).value.emitted);
    LastSliceHoldsEnd(c.sliceSize, c.wanted);
  }

  /** The stream never stalls by itself: while open, it can move or its front task is still running. */
  lemma OpenPipeCanMove(c: Config, events: seq<Event>)
    requires c.Valid() && After(c, events).Some?
    requires After(c, events).value.ending.Open?
    ensures var p := After(c, events).value;
            || Enabled(c, p, Spawn)
            || Enabled(c, p, Emit)
            || Enabled(c, p, End)
            || (p.queue != [] && forall payload :: Enabled(c, p, Finish(0, payload)))
  {
    ReachableShape(c, events);
  }
}
