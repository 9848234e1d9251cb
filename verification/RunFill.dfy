/**
  The body of one object fill: a stream that arrives in arbitrary chunks is cut into
  slices as it comes, each stored under its index and then published.
 */
module RunFill {
  import opened Core
  import opened Meta
  import opened Range
  import opened Filler

  type Chunk = Result<seq<byte>, string>

  datatype Effect =
    | Stored(key: SliceKey, payload: seq<byte>)
    | Published(count: u32)

  /** A `u32` counter after `n` increments. */
  function Wrap(n: nat): u32 {
    if n <= MAX_U32 then n else n % (MAX_U32 + 1)
  }

  // ----------------------------------------------------------- the stream

  /** Everything a stream delivers before it ends or breaks. */
  function Delivered(stream: seq<Chunk>): seq<byte> {
    if stream == [] || stream[0].Err? then [] else stream[0].value + Delivered(stream[1..])
  }

  function Breaks(stream: seq<Chunk>): Option<string> {
    if stream == [] then None
    else if stream[0].Err? then Some(stream[0].error)
    else Breaks(stream[1..])
  }

  // ----------------------------------------------------- the specification

  /** The bytes of `content` that belong to slice `i`. */
  function SliceOf(content: seq<byte>, s: SliceSize, i: nat): seq<byte> {
    if i * s <= |content| then content[i * s..Min(i * s + s, |content|)] else []
  }

  /** The first `n` slices of `content`. */
  function Slices(content: seq<byte>, s: SliceSize, n: nat): (slices: seq<seq<byte>>)
    ensures |slices| == n
  {
    if n == 0 then [] else Slices(content, s, n - 1) + [SliceOf(content, s, n - 1)]
  }

  lemma {:induction false} SlicesAt(content: seq<byte>, s: SliceSize, n: nat, i: nat)
    requires i < n
    ensures Slices(content, s, n)[i] == SliceOf(content, s, i)
  {
    if i < n - 1 { SlicesAt(content, s, n - 1, i); }
  }

  /** Store slice 0, publish 1, store slice 1, publish 2, and so on. */
  function Script(oid: ObjectId, generation: u32, slices: seq<seq<byte>>): (script: seq<Effect>)
    ensures |script| == 2 * |slices|
  {
    if slices == [] then []
    else
      var n := |slices| - 1;
      Script(oid, generation, slices[..n]) +
      [Stored(SliceKey(oid, generation, Wrap(n)), slices[n]), Published(Wrap(n + 1))]
  }

  /** The number of slices of an object of length `n`. */
  function SliceCount(n: nat, s: SliceSize): nat {
    (n + s - 1) / s
  }

  /** The number of slices that `n` bytes fill completely. */
  function WholeSlices(n: nat, s: SliceSize): nat {
    n / s
  }

  lemma SliceCountIs(n: nat, s: SliceSize, k: nat)
    requires n <= k * s < n + s
    ensures SliceCount(n, s) == k
  {
    QuotientIs(n + s - 1, s, k);
  }

  lemma QuotientIs(x: nat, s: SliceSize, k: nat)
    requires k * s <= x < k * s + s
    ensures x / s == k
  {
    DivisionBrackets(x, s);
    if x / s < k { MulMonotone(x / s + 1, k, s); }
    if k < x / s { MulMonotone(k + 1, x / s, s); }
  }

  // ------------------------------------------------------------- the loop

  /**
    `run_fill` after the stream is open. Whatever the chunking, a stream that ends
    normally stores and publishes exactly the slices of what it delivered; one that
    breaks does so for the whole slices delivered until then.
   */
  method Run(oid: ObjectId, generation: u32, s: SliceSize, stream: seq<Chunk>)
    returns (outcome: Outcome, effects: seq<Effect>)
    ensures Breaks(stream).None? ==>
              && outcome == Filled(Wrap(SliceCount(|Delivered(stream)|, s)))
              && effects == Script(oid, generation, Slices(Delivered(stream), s, SliceCount(|Delivered(stream)|, s)))
    ensures Breaks(stream).Some? ==>
              && outcome == Broke(Breaks(stream).value)
              && effects == Script(oid, generation, Slices(Delivered(stream), s, WholeSlices(|Delivered(stream)|, s)))
  {
    effects := [];
    var buffer: seq<byte>, index: u32, at := [], 0, 0;
    ghost var body: seq<byte>, cuts := [], 0;
    while at < |stream|
      invariant 0 <= at <= |stream|
      invariant ReadSoFar(stream, at, body)
      invariant CutSoFar(oid, generation, s, body, cuts, buffer, index, effects)
      invariant |buffer| < s
    {
      if stream[at].Err? {
        Broken(oid, generation, s, stream, at, body, cuts, buffer, index, effects);
        return Broke(stream[at].error), effects;
      }
      Grow(oid, generation, s, body, cuts, buffer, index, effects, stream[at].value);
      StreamGoesOn(stream, at, body);
      buffer, body := buffer + stream[at].value, body + stream[at].value;
      while |buffer| >= s
        invariant CutSoFar(oid, generation, s, body, cuts, buffer, index, effects)
      {
        CutOne(oid, generation, s, body, cuts, buffer, index, effects);
        effects := effects + [Stored(SliceKey(oid, generation, index), buffer[..s])];
        buffer := buffer[s..];
        index := WrapSucc(index);
        effects := effects + [Published(index)];
        cuts := cuts + 1;
      }
      at := at + 1;
    }
    Ended(oid, generation, s, stream, at, body, cuts, buffer, index, effects);
    if buffer != [] {
      effects := effects + [Stored(SliceKey(oid, generation, index), buffer)];
      index := WrapSucc(index);
      effects := effects + [Published(index)];
    }
    return Filled(index), effects;
  }

  /** What holds each time around: `cuts` slices are out, and the buffer is the rest. */
  ghost predicate CutSoFar(oid: ObjectId, generation: u32, s: SliceSize, body: seq<byte>, cuts: nat,
                           buffer: seq<byte>, index: u32, effects: seq<Effect>)
  {
    && cuts * s + |buffer| == |body| && buffer == body[cuts * s..]
    && index == Wrap(cuts)
    && effects == Script(oid, generation, Slices(body, s, cuts))
  }

  /** The first `at` chunks were all good, and `body` is what they hold. */
  ghost predicate ReadSoFar(stream: seq<Chunk>, at: nat, body: seq<byte>) {
    && at <= |stream|
    && Delivered(stream) == body + Delivered(stream[at..])
    && Breaks(stream) == Breaks(stream[at..])
  }

  lemma StreamStops(stream: seq<Chunk>, at: nat, body: seq<byte>)
    requires ReadSoFar(stream, at, body)
    requires at == |stream| || stream[at].Err?
    ensures Delivered(stream) == body
    ensures Breaks(stream) == if at == |stream| then None else Some(stream[at].error)
  {
  }

  lemma StreamGoesOn(stream: seq<Chunk>, at: nat, body: seq<byte>)
    requires ReadSoFar(stream, at, body) && at < |stream| && stream[at].Ok?
    ensures ReadSoFar(stream, at + 1, body + stream[at].value)
  {
    assert stream[at..][1..] == stream[at + 1..];
  }

  lemma Grow(oid: ObjectId, generation: u32, s: SliceSize, body: seq<byte>, cuts: nat,
             buffer: seq<byte>, index: u32, effects: seq<Effect>, chunk: seq<byte>)
    requires CutSoFar(oid, generation, s, body, cuts, buffer, index, effects)
    ensures CutSoFar(oid, generation, s, body + chunk, cuts, buffer + chunk, index, effects)
  {
    assert (body + chunk)[cuts * s..] == buffer + chunk;
    SlicesOfLonger(body, body + chunk, s, cuts);
  }

  /** Whole slices are settled by the bytes before them. */
  lemma SliceOfLonger(short: seq<byte>, long: seq<byte>, s: SliceSize, i: nat, n: nat)
    requires short <= long && i < n && n * s <= |short|
    ensures SliceOf(short, s, i) == SliceOf(long, s, i)
  {
    MulMonotone(i + 1, n, s);
    assert (i + 1) * s == i * s + s;
  }

  lemma {:induction false} SlicesOfLonger(short: seq<byte>, long: seq<byte>, s: SliceSize, n: nat)
    requires short <= long && n * s <= |short|
    ensures Slices(short, s, n) == Slices(long, s, n)
  {
    if n > 0 {
      MulMonotone(n - 1, n, s);
      SliceOfLonger(short, long, s, n - 1, n);
      SlicesOfLonger(short, long, s, n - 1);
    }
  }

  lemma WrapStep(n: nat)
    ensures WrapSucc(Wrap(n)) == Wrap(n + 1)
  {
    Successor(n, MAX_U32 + 1);
  }

  lemma Successor(n: nat, m: int)
    requires 0 < m
    ensures (n + 1) % m == if n % m == m - 1 then 0 else n % m + 1
  {
    var q, r := n / m, n % m;
    assert n == m * q + r;
    if r == m - 1 {
      assert n + 1 == m * (q + 1);
      Remainder(n + 1, m, q + 1, 0);
    } else {
      Remainder(n + 1, m, q, r + 1);
    }
  }

  lemma Remainder(n: nat, m: int, q: int, r: int)
    requires 0 < m && n == m * q + r && 0 <= r < m
    ensures n % m == r
  {
    var d := n / m - q;
    assert m * d == r - n % m;
    if d > 0 { MulMonotone(1, d, m); }
    if d < 0 { MulMonotone(d, -1, m); }
  }

  /** What is taken off the front of the buffer is the next slice. */
  lemma FrontOfBuffer(body: seq<byte>, s: SliceSize, cuts: nat, buffer: seq<byte>)
    requires cuts * s + |buffer| == |body| && buffer == body[cuts * s..]
    ensures (cuts + 1) * s == cuts * s + s
    ensures |buffer| >= s ==> SliceOf(body, s, cuts) == buffer[..s] && buffer[s..] == body[(cuts + 1) * s..]
    ensures |buffer| < s ==> SliceOf(body, s, cuts) == buffer
  {
    assert (cuts + 1) * s == cuts * s + s;
    assert body == body[..cuts * s] + buffer;
  }

  lemma ScriptGrows(oid: ObjectId, generation: u32, slices: seq<seq<byte>>, index: u32, payload: seq<byte>)
    requires index == Wrap(|slices|)
    ensures WrapSucc(index) == Wrap(|slices| + 1)
    ensures Script(oid, generation, slices) +
            [Stored(SliceKey(oid, generation, index), payload)] + [Published(WrapSucc(index))]
         == Script(oid, generation, slices + [payload])
  {
    WrapStep(|slices|);
    assert (slices + [payload])[..|slices|] == slices;
    Joins(Script(oid, generation, slices), Stored(SliceKey(oid, generation, index), payload),
          Published(WrapSucc(index)));
  }

  lemma Joins(effects: seq<Effect>, a: Effect, b: Effect)
    ensures effects + [a] + [b] == effects + [a, b]
  {
  }

  lemma CutOne(oid: ObjectId, generation: u32, s: SliceSize, body: seq<byte>, cuts: nat,
               buffer: seq<byte>, index: u32, effects: seq<Effect>)
    requires CutSoFar(oid, generation, s, body, cuts, buffer, index, effects)
    requires |buffer| >= s
    ensures CutSoFar(oid, generation, s, body, cuts + 1, buffer[s..], WrapSucc(index),
                     effects + [Stored(SliceKey(oid, generation, index), buffer[..s])] + [Published(WrapSucc(index))])
  {
    FrontOfBuffer(body, s, cuts, buffer);
    ScriptGrows(oid, generation, Slices(body, s, cuts), index, buffer[..s]);
  }

  lemma CutLast(oid: ObjectId, generation: u32, s: SliceSize, body: seq<byte>, cuts: nat,
                buffer: seq<byte>, index: u32, effects: seq<Effect>)
    requires CutSoFar(oid, generation, s, body, cuts, buffer, index, effects)
    requires 0 < |buffer| < s
    ensures SliceCount(|body|, s) == cuts + 1
    ensures WrapSucc(index) == Wrap(cuts + 1)
    ensures effects + [Stored(SliceKey(oid, generation, index), buffer)] + [Published(WrapSucc(index))]
         == Script(oid, generation, Slices(body, s, cuts + 1))
  {
    FrontOfBuffer(body, s, cuts, buffer);
    SliceCountIs(|body|, s, cuts + 1);
    ScriptGrows(oid, generation, Slices(body, s, cuts), index, buffer);
  }

  lemma Broken(oid: ObjectId, generation: u32, s: SliceSize, stream: seq<Chunk>, at: nat, body: seq<byte>, cuts: nat,
               buffer: seq<byte>, index: u32, effects: seq<Effect>)
    requires ReadSoFar(stream, at, body) && at < |stream| && stream[at].Err?
    requires CutSoFar(oid, generation, s, body, cuts, buffer, index, effects) && |buffer| < s
    ensures Breaks(stream) == Some(stream[at].error)
    ensures effects == Script(oid, generation, Slices(Delivered(stream), s, WholeSlices(|Delivered(stream)|, s)))
  {
    StreamStops(stream, at, body);
    QuotientIs(|body|, s, cuts);
  }

  lemma Ended(oid: ObjectId, generation: u32, s: SliceSize, stream: seq<Chunk>, at: nat, body: seq<byte>, cuts: nat,
              buffer: seq<byte>, index: u32, effects: seq<Effect>)
    requires ReadSoFar(stream, at, body) && at == |stream|
    requires CutSoFar(oid, generation, s, body, cuts, buffer, index, effects) && |buffer| < s
    ensures Breaks(stream) == None
    ensures var n := SliceCount(|Delivered(stream)|, s);
            var script := Script(oid, generation, Slices(Delivered(stream), s, n));
            if buffer == [] then index == Wrap(n) && effects == script
            else
              && WrapSucc(index) == Wrap(n)
              && effects + [Stored(SliceKey(oid, generation, index), buffer)] + [Published(WrapSucc(index))] == script
  {
    StreamStops(stream, at, body);
    if buffer != [] {
      CutLast(oid, generation, s, body, cuts, buffer, index, effects);
    } else {
      SliceCountIs(|body|, s, cuts);
    }
  }

  // ------------------------------------------------------------ what follows

  /** The store after a sequence of effects. */
  function Replay(store: map<SliceKey, seq<byte>>, effects: seq<Effect>): map<SliceKey, seq<byte>> {
    if effects == [] then store
    else
      var before := Replay(store, effects[..|effects| - 1]);
      match effects[|effects| - 1]
      case Stored(key, payload) => before[key := payload]
      case Published(_) => before
  }

  /** The key of one of the first `n` slices of an object generation. */
  predicate IsAmong(key: SliceKey, oid: ObjectId, generation: u32, n: nat) {
    key.oid == oid && key.generation == generation && key.index < n
  }

  lemma ReplayOne(store: map<SliceKey, seq<byte>>, effects: seq<Effect>, effect: Effect)
    ensures Replay(store, effects + [effect]) ==
            if effect.Stored? then Replay(store, effects)[effect.key := effect.payload] else Replay(store, effects)
  {
    assert (effects + [effect])[..|effects|] == effects;
  }

  /** The store `after` holds `slices` for an object generation, and otherwise what `store` holds. */
  ghost predicate Holds(after: map<SliceKey, seq<byte>>, store: map<SliceKey, seq<byte>>, oid: ObjectId,
                        generation: u32, slices: seq<seq<byte>>)
  {
    forall key ::
      if IsAmong(key, oid, generation, |slices|) then key in after && after[key] == slices[key.index]
      else (key in after <==> key in store) && (key in store ==> after[key] == store[key])
  }

  lemma HoldsOneMore(before: map<SliceKey, seq<byte>>, store: map<SliceKey, seq<byte>>, oid: ObjectId,
                     generation: u32, slices: seq<seq<byte>>, payload: seq<byte>)
    requires |slices| <= MAX_U32 && Holds(before, store, oid, generation, slices)
    ensures Holds(before[SliceKey(oid, generation, |slices|) := payload], store, oid, generation, slices + [payload])
  {
    var more := slices + [payload];
    var after := before[SliceKey(oid, generation, |slices|) := payload];
    forall key ensures
      if IsAmong(key, oid, generation, |more|) then key in after && after[key] == more[key.index]
      else (key in after <==> key in store) && (key in store ==> after[key] == store[key])
    {
      assert IsAmong(key, oid, generation, |more|) <==>
             IsAmong(key, oid, generation, |slices|) || key == SliceKey(oid, generation, |slices|);
    }
  }

  lemma {:induction false} ReplayOfScript(store: map<SliceKey, seq<byte>>, oid: ObjectId, generation: u32,
                                          slices: seq<seq<byte>>)
    requires |slices| <= MAX_U32 + 1
    ensures Holds(Replay(store, Script(oid, generation, slices)), store, oid, generation, slices)
  {
    if slices != [] {
      var n := |slices| - 1;
      var before, payload := slices[..n], slices[n];
      var script := Script(oid, generation, before);
      var a, b := Stored(SliceKey(oid, generation, n), payload), Published(WrapSucc(n));
      ReplayOfScript(store, oid, generation, before);
      HoldsOneMore(Replay(store, script), store, oid, generation, before, payload);
      ReplayOne(store, script, a);
      ReplayOne(store, script + [a], b);
      ScriptGrows(oid, generation, before, n, payload);
      assert before + [payload] == slices;
    }
  }

  /** Below the length, `SliceOf` is the payload the ranged path stores for that slice. */
  lemma SliceOfIsPayload(content: seq<byte>, s: SliceSize, i: u32)
    requires |content| <= MAX_U64 && SliceStart(i, s) < |content|
    ensures SliceOf(content, s, i) == SlicePayload(content, s, i)
  {
  }

  lemma CountedSlicesStartInside(n: nat, s: SliceSize, i: nat)
    requires i < SliceCount(n, s)
    ensures i * s < n
  {
    DivisionBrackets(n + s - 1, s);
    MulMonotone(i + 1, SliceCount(n, s), s);
    assert (i + 1) * s == i * s + s;
  }

  /** The store `after` holds the payloads of the first `n` slices of an object, and otherwise what `store` holds. */
  ghost predicate HoldsPayloads(after: map<SliceKey, seq<byte>>, store: map<SliceKey, seq<byte>>, oid: ObjectId,
                                generation: u32, content: seq<byte>, s: SliceSize, n: nat)
    requires |content| <= MAX_U64
  {
    forall key ::
      if IsAmong(key, oid, generation, n) then
        SliceStart(key.index, s) < |content| && key in after && after[key] == SlicePayload(content, s, key.index)
      else (key in after <==> key in store) && (key in store ==> after[key] == store[key])
  }

  lemma SlicesArePayloads(after: map<SliceKey, seq<byte>>, store: map<SliceKey, seq<byte>>, oid: ObjectId,
                          generation: u32, content: seq<byte>, part: seq<byte>, s: SliceSize, n: nat)
    requires |content| <= MAX_U64 && part <= content
    requires n <= SliceCount(|content|, s) && (n * s <= |part| || part == content)
    requires Holds(after, store, oid, generation, Slices(part, s, n))
    ensures HoldsPayloads(after, store, oid, generation, content, s, n)
  {
    forall key | IsAmong(key, oid, generation, n)
      ensures SliceStart(key.index, s) < |content| && key in after && after[key] == SlicePayload(content, s, key.index)
    {
      SlicesAt(part, s, n, key.index);
      CountedSlicesStartInside(|content|, s, key.index);
      SliceOfIsPayload(content, s, key.index);
      if n * s <= |part| { SliceOfLonger(part, content, s, key.index, n); }
    }
  }

  /**
    A fill of an object of fewer than 2^32 slices leaves in the store, for that object and
    generation, exactly the payloads the ranged path would have stored, and touches nothing else.
   */
  lemma FillStoresTheObject(store: map<SliceKey, seq<byte>>, oid: ObjectId, generation: u32,
                            content: seq<byte>, s: SliceSize)
    requires |content| <= MAX_U64 && SliceCount(|content|, s) <= MAX_U32
    ensures var n := SliceCount(|content|, s);
            HoldsPayloads(Replay(store, Script(oid, generation, Slices(content, s, n))),
                          store, oid, generation, content, s, n)
  {
    var n := SliceCount(|content|, s);
    var slices := Slices(content, s, n);
    ReplayOfScript(store, oid, generation, slices);
    SlicesArePayloads(Replay(store, Script(oid, generation, slices)), store, oid, generation, content, content, s, n);
  }

  /** A fill cut off after some of the object leaves only correct leading slices of the whole object. */
  lemma BrokenFillStoresLeadingSlices(store: map<SliceKey, seq<byte>>, oid: ObjectId, generation: u32,
                                      content: seq<byte>, part: seq<byte>, s: SliceSize)
    requires |content| <= MAX_U64 && SliceCount(|content|, s) <= MAX_U32
    requires part <= content
    ensures var n := WholeSlices(|part|, s);
            HoldsPayloads(Replay(store, Script(oid, generation, Slices(part, s, n))),
                          store, oid, generation, content, s, n)
  {
    var n := WholeSlices(|part|, s);
    var slices := Slices(part, s, n);
    WholeSlicesAreCounted(|part|, |content|, s);
    DivisionBrackets(|part|, s);
    ReplayOfScript(store, oid, generation, slices);
    SlicesArePayloads(Replay(store, Script(oid, generation, slices)), store, oid, generation, content, part, s, n);
  }

  lemma WholeSlicesAreCounted(part: nat, whole: nat, s: SliceSize)
    requires part <= whole
    ensures WholeSlices(part, s) <= SliceCount(whole, s)
  {
    DivisionMonotone(part, whole + s - 1, s);
  }

  /** The `k`-th publish says `k + 1`, right after slice `k` was stored. */
  lemma {:induction false} PublishedCountsRiseByOne(oid: ObjectId, generation: u32, slices: seq<seq<byte>>, k: nat)
    requires k < |slices| <= MAX_U32
    ensures var script := Script(oid, generation, slices);
            && script[2 * k] == Stored(SliceKey(oid, generation, k), slices[k])
            && script[2 * k + 1] == Published(k + 1)
  {
    var n := |slices| - 1;
    if k < n { PublishedCountsRiseByOne(oid, generation, slices[..n], k); }
  }

  /** At the moment a count is published, every slice below it is already in the store. */
  lemma StoredBeforePublished(store: map<SliceKey, seq<byte>>, oid: ObjectId, generation: u32,
                              slices: seq<seq<byte>>, at: nat)
    requires |slices| <= MAX_U32
    requires at < |Script(oid, generation, slices)| && Script(oid, generation, slices)[at].Published?
    ensures var script := Script(oid, generation, slices);
            && script[at].count <= |slices|
            && Holds(Replay(store, script[..at]), store, oid, generation, slices[..script[at].count])
  {
    var k := at / 2;
    PublishedCountsRiseByOne(oid, generation, slices, k);
    assert at == 2 * k + 1;
    UpToPublish(oid, generation, slices, k);
    BeforePublish(store, oid, generation, slices[..k + 1]);
    ReplayOfScript(store, oid, generation, slices[..k + 1]);
  }

  /** Up to its k-th publish a script is that of its first k + 1 slices, but for the publish. */
  lemma UpToPublish(oid: ObjectId, generation: u32, slices: seq<seq<byte>>, k: nat)
    requires k < |slices|
    ensures var part := Script(oid, generation, slices[..k + 1]);
            && |part| == 2 * k + 2 <= |Script(oid, generation, slices)|
            && Script(oid, generation, slices)[..2 * k + 1] == part[..|part| - 1]
  {
    ScriptPrefix(oid, generation, slices, k + 1);
  }

  lemma BeforePublish(store: map<SliceKey, seq<byte>>, oid: ObjectId, generation: u32, slices: seq<seq<byte>>)
    requires slices != []
    ensures var script := Script(oid, generation, slices);
            Replay(store, script[..|script| - 1]) == Replay(store, script)
  {
    var script := Script(oid, generation, slices);
    var n := |script| - 1;
    ReplayOne(store, script[..n], script[n]);
    assert script == script[..n] + [script[n]];
  }

  lemma {:induction false} ScriptPrefix(oid: ObjectId, generation: u32, slices: seq<seq<byte>>, k: nat)
    requires k <= |slices|
    ensures Script(oid, generation, slices[..k]) <= Script(oid, generation, slices)
    decreases |slices|
  {
    if k < |slices| {
      var n := |slices| - 1;
      assert slices[..n][..k] == slices[..k];
      ScriptPrefix(oid, generation, slices[..n], k);
    } else {
      assert slices[..k] == slices;
    }
  }
}
