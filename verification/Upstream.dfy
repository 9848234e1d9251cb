/**
  Upstream fetches: the two semaphores every fetch passes, the retry loop around a
  request, and the bounded body buffer.
 */
module Upstream {
  import opened Core
  import opened Counting

  type Service = string

  /** Limits as configured; a service that is not listed has none. */
  datatype Config = Config(maxInflight: nat, limits: map<Service, nat>)

  function Permits(c: Config, service: Service): nat
    requires service in c.limits
  {
    Max(c.limits[service], 1)
  }

  // ------------------------------------------------------------- the permits

  /** Where a fetch stands; a streamed fetch takes the service permit only. */
  datatype Pc =
    | AtService(service: Service, streamed: bool)
    | AtGlobal(service: Service)
    | Sending(service: Service)
    | Opening(service: Service)
    | AtReturn(service: Service)
    | Done

  /** `free` is what the global semaphore has left, `freeOf` what each service's has. */
  datatype System = System(free: nat, freeOf: map<Service, nat>, tasks: map<nat, Pc>)

  datatype Action = Start(task: nat, service: Service, streamed: bool) | Step(task: nat)

  function Init(c: Config): System {
    System(c.maxInflight, map s | s in c.limits :: Permits(c, s), map[])
  }

  predicate Enabled(y: System, a: Action) {
    match a
    case Start(t, _, _) => t !in y.tasks
    case Step(t) =>
      && t in y.tasks
      && match y.tasks[t]
         case AtService(s, _) => s in y.freeOf ==> y.freeOf[s] > 0
         case AtGlobal(_) => y.free > 0
         case Sending(_) => true
         case Opening(_) => true
         case AtReturn(_) => true
         case Done => false
  }

  function TakeOf(freeOf: map<Service, nat>, s: Service): map<Service, nat> {
    if s in freeOf && freeOf[s] > 0 then freeOf[s := freeOf[s] - 1] else freeOf
  }

  function GiveOf(freeOf: map<Service, nat>, s: Service): map<Service, nat> {
    if s in freeOf then freeOf[s := freeOf[s] + 1] else freeOf
  }

  /** One acquire or one release; the later permit is the first to go. */
  function Next(y: System, a: Action): System
    requires Enabled(y, a)
  {
    match a
    case Start(t, s, streamed) => y.(tasks := y.tasks[t := AtService(s, streamed)])
    case Step(t) =>
      match y.tasks[t]
      case AtService(s, streamed) =>
        y.(freeOf := TakeOf(y.freeOf, s), tasks := y.tasks[t := if streamed then Opening(s) else AtGlobal(s)])
      case AtGlobal(s) => y.(free := y.free - 1, tasks := y.tasks[t := Sending(s)])
      case Sending(s) => y.(free := y.free + 1, tasks := y.tasks[t := AtReturn(s)])
      case Opening(s) => y.(freeOf := GiveOf(y.freeOf, s), tasks := y.tasks[t := Done])
      case AtReturn(s) => y.(freeOf := GiveOf(y.freeOf, s), tasks := y.tasks[t := Done])
  }

  function After(c: Config, actions: seq<Action>): Option<System> {
    if actions == [] then Some(Init(c))
    else
      match After(c, actions[..|actions| - 1])
      case None => None
      case Some(y) =>
        var last := actions[|actions| - 1];
        if Enabled(y, last) then Some(Next(y, last)) else None
  }

  predicate HoldsGlobal(pc: Pc) { pc.Sending? }

  predicate HoldsService(pc: Pc, s: Service) {
    (pc.AtGlobal? || pc.Sending? || pc.Opening? || pc.AtReturn?) && pc.service == s
  }

  function Holders(s: Service): Pc -> bool { pc => HoldsService(pc, s) }

  /** Permits left and permits held make up what there is. */
  predicate Inv(c: Config, y: System) {
    && y.free + Count(y.tasks, HoldsGlobal) == c.maxInflight
    && y.freeOf.Keys == c.limits.Keys
    && forall s :: s in c.limits ==> y.freeOf[s] + Count(y.tasks, Holders(s)) == Permits(c, s)
  }

  lemma ServiceStep(c: Config, y: System, a: Action, s: Service)
    requires Inv(c, y) && Enabled(y, a) && s in c.limits
    ensures s in Next(y, a).freeOf
    ensures Next(y, a).freeOf[s] + Count(Next(y, a).tasks, Holders(s)) == Permits(c, s)
  {
    CountMove(y.tasks, a.task, Next(y, a).tasks[a.task], Holders(s));
  }

  lemma StepKeepsInvariant(c: Config, y: System, a: Action)
    requires Inv(c, y) && Enabled(y, a)
    ensures Inv(c, Next(y, a))
  {
    CountMove(y.tasks, a.task, Next(y, a).tasks[a.task], HoldsGlobal);
    forall s | s in c.limits
      ensures s in Next(y, a).freeOf && Next(y, a).freeOf[s] + Count(Next(y, a).tasks, Holders(s)) == Permits(c, s)
    {
      ServiceStep(c, y, a, s);
    }
  }

  lemma {:induction false} ReachableInvariant(c: Config, actions: seq<Action>)
    requires After(c, actions).Some?
    ensures Inv(c, After(c, actions).value)
  {
    if actions == [] {
      CountZero(Init(c).tasks, HoldsGlobal);
      forall s | s in c.limits ensures Count(Init(c).tasks, Holders(s)) == 0 { CountZero(Init(c).tasks, Holders(s)); }
    } else {
      ReachableInvariant(c, actions[..|actions| - 1]);
      StepKeepsInvariant(c, After(c, actions[..|actions| - 1]).value, actions[|actions| - 1]);
    }
  }

  /** Requests in flight never exceed the global limit, nor their service's; a limit of zero counts as one. */
  lemma InflightIsBounded(c: Config, actions: seq<Action>, service: Service)
    requires After(c, actions).Some?
    ensures Count(After(c, actions).value.tasks, HoldsGlobal) <= c.maxInflight
    ensures service in c.limits ==> Count(After(c, actions).value.tasks, Holders(service)) <= Max(c.limits[service], 1)
  {
    ReachableInvariant(c, actions);
  }

  predicate Waits(pc: Pc) { pc.AtService? || pc.AtGlobal? }

  /**
    No deadlock: with at least one global permit, as long as some fetch is unfinished some
    fetch can take a step, because whoever waits for the global permit holds no more than
    its own service's and whoever waits for a service permit holds nothing.
   */
  lemma SomeFetchCanMove(c: Config, actions: seq<Action>, t: nat)
    requires c.maxInflight >= 1 && After(c, actions).Some?
    requires t in After(c, actions).value.tasks && !After(c, actions).value.tasks[t].Done?
    ensures exists u :: Enabled(After(c, actions).value, Step(u))
  {
    ReachableInvariant(c, actions);
    var y := After(c, actions).value;
    if u :| u in y.tasks && !Waits(y.tasks[u]) && !y.tasks[u].Done? {
      assert Enabled(y, Step(u));
    } else {
      CountZero(y.tasks, HoldsGlobal);
      if u :| u in y.tasks && y.tasks[u].AtGlobal? {
        assert Enabled(y, Step(u));
      } else {
        var s := y.tasks[t].service;
        if s in c.limits { CountZero(y.tasks, Holders(s)); }
        assert Enabled(y, Step(t));
      }
    }
  }

  /** With no global permit at all, a single fetch waits for ever. */
  lemma NoPermitsNoProgress(c: Config, service: Service)
    requires c.maxInflight == 0 && service !in c.limits
    ensures var run := [Start(0, service, false), Step(0)];
            && After(c, run).Some? && After(c, run).value.tasks == map[0 := AtGlobal(service)]
            && forall u :: !Enabled(After(c, run).value, Step(u))
  {
    var y := Init(c);
    var run := [Start(0, service, false), Step(0)];
    assert run[..1] == [Start(0, service, false)] && run[..1][..0] == [];
    assert After(c, run[..1]) == Some(y.(tasks := map[0 := AtService(service, false)]));
  }

  // --------------------------------------------------------------- one fetch

  const RANGE_SLACK: u64 := 65_536

  function SatAdd(a: u64, b: u64): u64 { Min(a + b, MAX_U64) }

  /** The most a 206 body may hold. */
  function BodyLimit(start: u64, end: u64, ceiling: u64): u64 {
    Min(SatAdd(SatAdd(SatSub(end, start), 1), RANGE_SLACK), ceiling)
  }

  type Chunk = Result<seq<byte>, ()>

  datatype Answer =
    | Unsent(retryable: bool)
    | Answered(status: nat, declared: Option<u64>, chunks: seq<Chunk>)

  datatype Failure = Redirect | Status(status: nat) | BodyTooLarge(limit: u64) | Broken

  datatype Response = Response(status: nat, body: seq<byte>)

  function Concat(chunks: seq<Chunk>): (bytes: seq<byte>)
    requires forall i :: 0 <= i < |chunks| ==> chunks[i].Ok?
  {
    if chunks == [] then [] else Concat(chunks[..|chunks| - 1]) + chunks[|chunks| - 1].value
  }

  /** Chunk `i` is the first that cannot be taken: it is broken, or it does not fit. */
  predicate StopsAt(chunks: seq<Chunk>, limit: u64, i: nat, failure: Failure) {
    && i < |chunks| && (forall j :: 0 <= j < i ==> chunks[j].Ok?) && |Concat(chunks[..i])| <= limit
    && match chunks[i]
       case Err(_) => failure == Broken
       case Ok(bytes) => |Concat(chunks[..i])| + |bytes| > limit && failure == BodyTooLarge(limit)
  }

  /**
    The body loop: a whole body within the limit is returned entire, anything else fails,
    and what is buffered on the way never exceeds the limit.
   */
  method ReadBody(chunks: seq<Chunk>, limit: u64) returns (r: Result<seq<byte>, Failure>, peak: nat)
    ensures peak <= limit
    ensures r.Ok? <==> (forall i :: 0 <= i < |chunks| ==> chunks[i].Ok?) && |Concat(chunks)| <= limit
    ensures r.Ok? ==> r.value == Concat(chunks) && peak == |r.value|
    ensures r.Err? ==> exists i :: StopsAt(chunks, limit, i, r.error)
  {
    var body: seq<byte>, i := [], 0;
    while i < |chunks|
      invariant 0 <= i <= |chunks| && (forall j :: 0 <= j < i ==> chunks[j].Ok?)
      invariant body == Concat(chunks[..i]) && |body| <= limit
    {
      if chunks[i].Err? {
        assert StopsAt(chunks, limit, i, Broken);
        return Err(Broken), |body|;
      }
      assert chunks[..i + 1][..i] == chunks[..i];
      if |body| + |chunks[i].value| > limit {
        TooLong(chunks, i + 1);
        assert StopsAt(chunks, limit, i, BodyTooLarge(limit));
        return Err(BodyTooLarge(limit)), |body|;
      }
      body := body + chunks[i].value;
      i := i + 1;
    }
    assert chunks[..i] == chunks;
    return Ok(body), |body|;
  }

  lemma {:induction false} TooLong(chunks: seq<Chunk>, n: nat)
    requires n <= |chunks| && forall j :: 0 <= j < n ==> chunks[j].Ok?
    ensures (forall j :: 0 <= j < |chunks| ==> chunks[j].Ok?) ==> |Concat(chunks[..n])| <= |Concat(chunks)|
    decreases |chunks|
  {
    if n == |chunks| {
      assert chunks[..n] == chunks;
    } else if forall j :: 0 <= j < |chunks| ==> chunks[j].Ok? {
      var shorter := chunks[..|chunks| - 1];
      TooLong(shorter, n);
      assert shorter[..n] == chunks[..n];
    }
  }

  /** What a single answer from the origin comes to. */
  ghost predicate Resolves(answer: Answer, limit: u64, r: Result<Response, Failure>)
    requires answer.Answered?
  {
    if 300 <= answer.status < 400 then r == Err(Redirect)
    else if !(200 <= answer.status < 300) then r == Err(Status(answer.status))
    else if answer.status != 206 then r == Ok(Response(answer.status, []))
    else if answer.declared.Some? && answer.declared.value > limit then r == Err(BodyTooLarge(limit))
    else
      && (r.Ok? <==>
          (forall i :: 0 <= i < |answer.chunks| ==> answer.chunks[i].Ok?) && |Concat(answer.chunks)| <= limit)
      && (r.Ok? ==> r.value == Response(206, Concat(answer.chunks)))
      && (r.Err? ==> exists i :: StopsAt(answer.chunks, limit, i, r.error))
  }

  method Settle(answer: Answer, limit: u64) returns (r: Result<Response, Failure>, peak: nat)
    requires answer.Answered?
    ensures Resolves(answer, limit, r) && peak <= limit
  {
    if 300 <= answer.status < 400 {
      return Err(Redirect), 0;
    }
    if !(200 <= answer.status < 300) {
      return Err(Status(answer.status)), 0;
    }
    if answer.status != 206 {
      return Ok(Response(answer.status, [])), 0;
    }
    if answer.declared.Some? && answer.declared.value > limit {
      return Err(BodyTooLarge(limit)), 0;
    }
    var body;
    body, peak := ReadBody(answer.chunks, limit);
    r := if body.Ok? then Ok(Response(206, body.value)) else Err(body.error);
  }

  /**
    `fetch_range` with its permits in hand; `answers(k)` is what the `k`-th request meets.
    At most `retries + 1` requests go out, each but the last met a retryable transport
    failure, the last one decides, and no more than the body limit is ever buffered.
   */
  method FetchRange(answers: nat -> Answer, retries: nat, start: u64, end: u64, ceiling: u64)
    returns (r: Result<Response, Failure>, sent: nat, peak: nat)
    ensures 1 <= sent <= retries + 1
    ensures forall k :: 0 <= k < sent - 1 ==> answers(k) == Unsent(true)
    ensures answers(sent - 1).Answered? ==> Resolves(answers(sent - 1), BodyLimit(start, end, ceiling), r)
    ensures answers(sent - 1).Unsent? ==> r == Err(Broken) && (answers(sent - 1).retryable ==> sent == retries + 1)
    ensures peak <= BodyLimit(start, end, ceiling) <= ceiling
    ensures start <= end ==> peak <= end - start + 1 + RANGE_SLACK
  {
    var attempt := 0;
    peak := 0;
    while true
      invariant 0 <= attempt <= retries
      invariant forall k :: 0 <= k < attempt ==> answers(k) == Unsent(true)
      decreases retries - attempt
    {
      var answer := answers(attempt);
      if answer.Answered? {
        r, peak := Settle(answer, BodyLimit(start, end, ceiling));
        return r, attempt + 1, peak;
      }
      if attempt < retries && answer.retryable {
        attempt := attempt + 1;
      } else {
        return Err(Broken), attempt + 1, 0;
      }
    }
  }
}
