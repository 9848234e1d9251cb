/**
  No response mixes two versions of an object, exactly when no probe records its answer
  over a fresh entry that another version owns.

  The version whose probe first fills a generation of an object owns it. The invariant
  says that every slice, cell, plan and fetch that carries the generation agrees with
  its owner. All of it is about one object; what happens to others does not matter.
 */
module ProtocolSafety {
  import opened Core
  import opened Meta
  import opened Validators
  import opened Range
  import opened Protocol
  import opened ProtocolCells
  import P = Pipeline

  type Owners = map<u32, Version>

  // ------------------------------------------------------------- ownership

  /** The owners after a step: a put over a stale or unknown entry gives its generation an owner. */
  function NextOwners(o: ObjectId, s: State, owners: Owners, a: Action): Owners {
    if IsPut(o, s, a) && !IsFresh(s, o) then owners[StoredGeneration(s, o) := Answered(s, a)] else owners
  }

  /** The step records the answer to a probe of `o`. */
  predicate IsPut(o: ObjectId, s: State, a: Action) {
    a.ProbePut? && a.request in s.requests && s.requests[a.request].oid == o && s.requests[a.request].phase.Fetched?
  }

  /** The version a put records. */
  function Answered(s: State, a: Action): Version
    requires a.ProbePut? && a.request in s.requests && s.requests[a.request].phase.Fetched?
  {
    s.requests[a.request].phase.version
  }

  function OwnersAfter(w: World, o: ObjectId, actions: seq<Action>): Owners {
    if actions == [] then map[]
    else
      var before := actions[..|actions| - 1];
      match After(w, before)
      case None => map[]
      case Some(s) => NextOwners(o, s, OwnersAfter(w, o, before), actions[|actions| - 1])
  }

  /** Two versions cannot be told apart by the metadata and the slice that a probe records. */
  predicate LookAlike(w: World, o: ObjectId, u: Version, v: Version, slice: u32) {
    && |w.content(o, u)| == |w.content(o, v)| && w.validators(o, u) == w.validators(o, v)
    && (SliceStart(slice, w.sliceSize) < |w.content(o, v)| <= MAX_U64 ==>
          SlicePayload(w.content(o, u), w.sliceSize, slice) == SlicePayload(w.content(o, v), w.sliceSize, slice))
  }

  /** A put over a fresh entry records what the owner of its generation would have recorded. */
  predicate PutAgrees(w: World, o: ObjectId, s: State, owners: Owners, a: Action) {
    IsPut(o, s, a) && IsFresh(s, o) ==>
      && s.index[o].generation in owners
      && LookAlike(w, o, owners[s.index[o].generation], Answered(s, a),
                   ProbeIndex(w.sliceSize, s.requests[a.request].spec))
  }

  predicate AllPutsAgree(w: World, o: ObjectId, actions: seq<Action>)
    requires After(w, actions).Some?
  {
    actions != [] ==>
      var before := actions[..|actions| - 1];
      && AllPutsAgree(w, o, before)
      && PutAgrees(w, o, After(w, before).value, OwnersAfter(w, o, before), actions[|actions| - 1])
  }

  // --------------------------------------------------------- the invariant

  predicate Describes(w: World, o: ObjectId, meta: ObjectMeta, v: Version) {
    && meta.totalLen == |w.content(o, v)|
    && MetaValidators(meta) == w.validators(o, v)
  }

  /** The metadata belongs to an owned generation and describes its owner. */
  predicate Owned(w: World, o: ObjectId, owners: Owners, meta: ObjectMeta) {
    meta.generation in owners && Describes(w, o, meta, owners[meta.generation])
  }

  /** A stored slice is the right slice of the version that owns its generation. */
  predicate GoodSlice(w: World, o: ObjectId, owners: Owners, k: SliceKey, payload: seq<byte>) {
    && k.generation in owners
    && var content := w.content(o, owners[k.generation]);
       && SliceStart(k.index, w.sliceSize) < |content| <= MAX_U64
       && payload == SlicePayload(content, w.sliceSize, k.index)
  }

  /** A response in progress sends bytes of the owning version only. */
  predicate GoodServing(w: World, o: ObjectId, owners: Owners, phase: Phase)
    requires phase.Serving?
  {
    && Owned(w, o, owners, phase.meta)
    && phase.wanted.end < phase.meta.totalLen <= MaxAddressableLen(w.sliceSize)
    && PipeConfig(w, phase.wanted).Valid()
    && P.Shape(PipeConfig(w, phase.wanted), phase.pipe)
    && P.Sized(PipeConfig(w, phase.wanted), phase.pipe)
    && P.Faithful(PipeConfig(w, phase.wanted), w.content(o, owners[phase.meta.generation]), phase.pipe)
  }

  predicate GoodEntry(w: World, o: ObjectId, owners: Owners, meta: ObjectMeta) {
    if meta.stale then meta.generation !in owners else Owned(w, o, owners, meta)
  }

  predicate GoodFetch(w: World, o: ObjectId, owners: Owners, fetch: Fetch) {
    && Owned(w, o, owners, fetch.meta)
    && SliceStart(fetch.index, w.sliceSize) < fetch.meta.totalLen
  }

  predicate Inv(w: World, o: ObjectId, s: State, owners: Owners) {
    && (forall g :: g in owners ==> o in s.index && g <= s.index[o].generation)
    && (o in s.index ==> GoodEntry(w, o, owners, s.index[o]))
    && (forall k :: k in s.store && k.oid == o ==> GoodSlice(w, o, owners, k, s.store[k]))
    && (forall c :: c in s.cells && s.cells[c].0 == o && s.cells[c].1.Ready? ==>
          Owned(w, o, owners, s.cells[c].1.meta))
    && (forall f :: f in s.fetches && s.fetches[f].oid == o ==> GoodFetch(w, o, owners, s.fetches[f]))
    && (forall r :: r in s.requests && s.requests[r].oid == o && s.requests[r].phase.Serving? ==>
          GoodServing(w, o, owners, s.requests[r].phase))
  }

  lemma SameForKeepsInvariant(w: World, o: ObjectId, s: State, t: State, owners: Owners)
    requires Inv(w, o, s, owners) && SameFor(s, t, o)
    ensures Inv(w, o, t, owners)
  {
    forall k | k in t.store && k.oid == o ensures GoodSlice(w, o, owners, k, t.store[k]) {
      assert GoodSlice(w, o, owners, k, s.store[k]);
    }
    forall c | c in t.cells && t.cells[c].0 == o && t.cells[c].1.Ready? ensures Owned(w, o, owners, t.cells[c].1.meta) {
      assert OfCell(o)(t.cells[c]);
    }
    forall f | f in t.fetches && t.fetches[f].oid == o ensures GoodFetch(w, o, owners, t.fetches[f]) {
      assert OfFetch(o)(t.fetches[f]);
    }
    forall r | r in t.requests && t.requests[r].oid == o && t.requests[r].phase.Serving?
      ensures GoodServing(w, o, owners, t.requests[r].phase)
    {
      assert OfRequest(o)(t.requests[r]);
    }
  }

  // ------------------------------------------------------------- the parts

  /** Metadata in hand gives a plan that serves its owner, from the first byte on. */
  lemma PlannedIsGood(w: World, o: ObjectId, owners: Owners, spec: Option<RangeSpec>, meta: ObjectMeta)
    requires GoodOrigin(w, o) && Owned(w, o, owners, meta)
    requires spec.Some? ==> WellFormed(spec.value)
    ensures Planned(spec, meta).Serving? ==> GoodServing(w, o, owners, Planned(spec, meta))
  {
    if spec.Some? {
      ResolveSelectsExactlyWhatIsAsked(spec.value, meta.totalLen);
    }
  }

  /** A slice fetch whose validators match stores a slice of the owning version. */
  lemma AcceptedFetchIsGood(w: World, o: ObjectId, owners: Owners, fetch: Fetch)
    requires GoodOrigin(w, o) && fetch.oid == o && GoodFetch(w, o, owners, fetch) && FetchOutcome(w, fetch).Some?
    ensures GoodSlice(w, o, owners, FetchKey(fetch), FetchOutcome(w, fetch).value)
  {
    var owner := owners[fetch.meta.generation];
    assert Matches(w.validators(o, owner), w.validators(o, fetch.response.value));
    assert w.content(o, owner) == w.content(o, fetch.response.value);
  }

  /** A slice task that returns a stored slice is honest about the owning version. */
  lemma StoredSliceIsHonest(w: World, o: ObjectId, owners: Owners, request: Request, j: nat, payload: seq<byte>)
    requires request.phase.Serving? && GoodServing(w, o, owners, request.phase)
    requires CanMove(w, request, P.Finish(j, None))
    requires GoodSlice(w, o, owners, SliceKeyAt(w, request, j), payload)
    ensures var content := w.content(o, owners[request.phase.meta.generation]);
            P.Honest(PipeConfig(w, request.phase.wanted), content, request.phase.pipe, P.Finish(j, Some(payload)))
  {
  }

  lemma MovedIsGood(w: World, o: ObjectId, owners: Owners, request: Request, event: P.Event)
    requires request.phase.Serving? && GoodServing(w, o, owners, request.phase)
    requires CanMove(w, request, event)
    requires var content := w.content(o, owners[request.phase.meta.generation]);
             P.Honest(PipeConfig(w, request.phase.wanted), content, request.phase.pipe, event)
    ensures GoodServing(w, o, owners, Moved(w, request, event).phase)
  {
    var c := PipeConfig(w, request.phase.wanted);
    var content := w.content(o, owners[request.phase.meta.generation]);
    P.ShapePreserved(c, request.phase.pipe, event);
    P.FaithfulPreserved(c, content, request.phase.pipe, event);
  }

  // -------------------------------------------- steps, by what they change

  lemma RequestStep(w: World, o: ObjectId, s: State, owners: Owners, r: nat, request: Request)
    requires Inv(w, o, s, owners)
    requires request.phase.Serving? ==> GoodServing(w, o, owners, request.phase)
    ensures Inv(w, o, s.(requests := s.requests[r := request]), owners)
  {
  }

  lemma CellStep(w: World, o: ObjectId, s: State, owners: Owners, c: nat, cell: Cell, cellOf: map<ObjectId, nat>)
    requires Inv(w, o, s, owners)
    requires cell.Ready? ==> Owned(w, o, owners, cell.meta)
    ensures Inv(w, o, s.(cells := s.cells[c := (o, cell)], cellOf := cellOf), owners)
  {
  }

  lemma FetchesStep(w: World, o: ObjectId, s: State, owners: Owners,
                    fetches: map<nat, Fetch>, cellOf: map<ObjectId, nat>)
    requires Inv(w, o, s, owners)
    requires forall f :: f in fetches && fetches[f].oid == o ==> GoodFetch(w, o, owners, fetches[f])
    ensures Inv(w, o, s.(fetches := fetches, cellOf := cellOf), owners)
  {
  }

  lemma StoreStep(w: World, o: ObjectId, s: State, owners: Owners, store: map<SliceKey, seq<byte>>)
    requires Inv(w, o, s, owners)
    requires forall k :: k in store && k.oid == o ==> GoodSlice(w, o, owners, k, store[k])
    ensures Inv(w, o, s.(store := store), owners)
  {
  }

  /** An entry is rewritten and its generation does not go down. */
  lemma EntryStep(w: World, o: ObjectId, s: State, owners: Owners, meta: ObjectMeta)
    requires Inv(w, o, s, owners) && o in s.index && s.index[o].generation <= meta.generation
    requires GoodEntry(w, o, owners, meta)
    ensures Inv(w, o, s.(index := s.index[o := meta]), owners)
  {
  }

  /** A stale or unknown entry's generation is given its owner. */
  lemma ClaimGeneration(w: World, o: ObjectId, s: State, owners: Owners, meta: ObjectMeta, v: Version)
    requires Inv(w, o, s, owners) && !IsFresh(s, o)
    requires meta.generation == StoredGeneration(s, o) && !meta.stale && Describes(w, o, meta, v)
    ensures meta.generation !in owners
    ensures Inv(w, o, s.(index := s.index[o := meta]), owners[meta.generation := v])
  {
    assert meta.generation !in owners by {
      if o in s.index { assert GoodEntry(w, o, owners, s.index[o]); }
    }
    OwnersGrow(w, o, s, owners, owners[meta.generation := v]);
  }

  /** What is owned stays owned when another generation is claimed. */
  lemma OwnersGrow(w: World, o: ObjectId, s: State, owners: Owners, more: Owners)
    requires Inv(w, o, s, owners) && forall g :: g in owners ==> g in more && more[g] == owners[g]
    ensures forall k :: k in s.store && k.oid == o ==> GoodSlice(w, o, more, k, s.store[k])
    ensures forall c :: c in s.cells && s.cells[c].0 == o && s.cells[c].1.Ready? ==>
                          Owned(w, o, more, s.cells[c].1.meta)
    ensures forall f :: f in s.fetches && s.fetches[f].oid == o ==> GoodFetch(w, o, more, s.fetches[f])
    ensures forall r :: r in s.requests && s.requests[r].oid == o && s.requests[r].phase.Serving? ==>
              GoodServing(w, o, more, s.requests[r].phase)
  {
    forall k | k in s.store && k.oid == o ensures GoodSlice(w, o, more, k, s.store[k]) {
      assert GoodSlice(w, o, owners, k, s.store[k]);
    }
    forall r | r in s.requests && s.requests[r].oid == o && s.requests[r].phase.Serving?
      ensures GoodServing(w, o, more, s.requests[r].phase)
    {
      assert GoodServing(w, o, owners, s.requests[r].phase);
    }
    forall f | f in s.fetches && s.fetches[f].oid == o ensures GoodFetch(w, o, more, s.fetches[f]) {
      assert GoodFetch(w, o, owners, s.fetches[f]);
    }
  }

  // ------------------------------------------------------- the probe's put

  /** Recording metadata that agrees keeps the invariant, and makes the metadata owned. */
  lemma PutEntry(w: World, o: ObjectId, s: State, owners: Owners, a: Action, meta: ObjectMeta)
    requires Inv(w, o, s, owners) && IsPut(o, s, a) && PutAgrees(w, o, s, owners, a)
    requires Describes(w, o, meta, Answered(s, a)) && meta.generation == StoredGeneration(s, o) && !meta.stale
    ensures var next := NextOwners(o, s, owners, a);
            && Inv(w, o, s.(index := s.index[o := meta]), next)
            && Owned(w, o, next, meta)
            && LookAlike(w, o, next[meta.generation], Answered(s, a),
                         ProbeIndex(w.sliceSize, s.requests[a.request].spec))
  {
    if IsFresh(s, o) {
      EntryStep(w, o, s, owners, meta);
    } else {
      ClaimGeneration(w, o, s, owners, meta, Answered(s, a));
    }
  }

  lemma PutStep(w: World, o: ObjectId, s: State, owners: Owners, a: Action)
    requires GoodOrigin(w, o) && Structure(s) && Inv(w, o, s, owners) && Enabled(w, s, a)
    requires IsPut(o, s, a) && PutAgrees(w, o, s, owners, a)
    ensures Inv(w, o, Apply(w, s, a), NextOwners(o, s, owners, a))
  {
    var r, request := a.request, s.requests[a.request];
    assert GoodCellRef(s.cells, request);
    var v, c := request.phase.version, request.phase.cell;
    var meta := ProbedMeta(w, s, o, v, a.key, a.contentType, a.now);
    var next := NextOwners(o, s, owners, a);
    PutEntry(w, o, s, owners, a, meta);
    var s1 := s.(index := s.index[o := meta]);
    var slice := ProbeIndex(w.sliceSize, request.spec);
    var store := s.store[SliceKey(o, meta.generation, slice) := SlicePayload(w.content(o, v), w.sliceSize, slice)];
    StoreStep(w, o, s1, next, store);
    FinishPut(w, o, s1.(store := store), next, r, c, meta);
  }

  /** With the entry and the slice recorded, the cell is filled and the request planned. */
  lemma FinishPut(w: World, o: ObjectId, s: State, owners: Owners, r: nat, c: nat, meta: ObjectMeta)
    requires GoodOrigin(w, o) && Inv(w, o, s, owners) && Owned(w, o, owners, meta)
    requires r in s.requests && (s.requests[r].spec.Some? ==> WellFormed(s.requests[r].spec.value))
    ensures var request := s.requests[r];
            Inv(w, o, s.(cells := s.cells[c := (o, Ready(meta))],
                         requests := s.requests[r := request.(phase := Planned(request.spec, meta))]), owners)
  {
    var request := s.requests[r];
    CellStep(w, o, s, owners, c, Ready(meta), s.cellOf);
    PlannedIsGood(w, o, owners, request.spec, meta);
    RequestStep(w, o, s.(cells := s.cells[c := (o, Ready(meta))]), owners, r,
                request.(phase := Planned(request.spec, meta)));
  }

  // ------------------------------------------------------- the other steps

  lemma LookupSteps(w: World, o: ObjectId, s: State, owners: Owners, a: Action)
    requires GoodOrigin(w, o) && Structure(s) && Inv(w, o, s, owners) && Enabled(w, s, a) && StepObject(w, s, a) == o
    requires a.Arrive? || a.ReadIndex? || a.ReadCell? || a.ProbeResponse?
    ensures Inv(w, o, Apply(w, s, a), owners)
  {
    if a.request in s.requests { assert GoodCellRef(s.cells, s.requests[a.request]); }
    match a {
      case Arrive(r, _, spec) => RequestStep(w, o, s, owners, r, Request(o, spec, Lookup));
      case ReadIndex(r) =>
        var request := s.requests[r];
        if IsFresh(s, o) { PlannedIsGood(w, o, owners, request.spec, s.index[o]); }
        RequestStep(w, o, s, owners, r, Apply(w, s, a).requests[r]);
      case ReadCell(r) =>
        var request := s.requests[r];
        PlannedIsGood(w, o, owners, request.spec, s.cells[request.phase.cell].1.meta);
        RequestStep(w, o, s, owners, r, Apply(w, s, a).requests[r]);
      case ProbeResponse(r) => RequestStep(w, o, s, owners, r, Apply(w, s, a).requests[r]);
    }
  }

  lemma CellSteps(w: World, o: ObjectId, s: State, owners: Owners, a: Action)
    requires Inv(w, o, s, owners) && Enabled(w, s, a) && StepObject(w, s, a) == o
    requires a.TakeCell? || a.StartProbe? || a.ProbeFail?
    ensures Inv(w, o, Apply(w, s, a), owners)
  {
    var r, t := a.request, Apply(w, s, a);
    if a.TakeCell? && o in s.cellOf {
      RequestStep(w, o, s, owners, r, t.requests[r]);
    } else {
      var c := if a.TakeCell? then a.newCell else s.requests[r].phase.cell;
      CellStep(w, o, s, owners, c, t.cells[c].1, t.cellOf);
      RequestStep(w, o, s.(cells := t.cells, cellOf := t.cellOf), owners, r, t.requests[r]);
    }
  }

  lemma PipeSteps(w: World, o: ObjectId, s: State, owners: Owners, a: Action)
    requires Inv(w, o, s, owners) && Enabled(w, s, a) && StepObject(w, s, a) == o
    requires a.MovePipe? || a.SliceHit? || a.SliceFail?
    ensures Inv(w, o, Apply(w, s, a), owners)
  {
    var r, request := a.request, s.requests[a.request];
    assert GoodServing(w, o, owners, request.phase);
    var event := match a
      case MovePipe(_, event) => event
      case SliceHit(_, j) => P.Finish(j, Some(s.store[SliceKeyAt(w, request, j)]))
      case SliceFail(_, j) => P.Finish(j, None);
    if a.SliceHit? {
      StoredSliceIsHonest(w, o, owners, request, a.position, event.payload.value);
    }
    MovedIsGood(w, o, owners, request, event);
    RequestStep(w, o, s, owners, r, Moved(w, request, event));
  }

  lemma FetchSteps(w: World, o: ObjectId, s: State, owners: Owners, a: Action)
    requires Inv(w, o, s, owners) && Enabled(w, s, a) && StepObject(w, s, a) == o
    requires a.SendFetch? || a.FetchResponse? || a.FetchDrop? || a.DropCell?
    ensures Inv(w, o, Apply(w, s, a), owners)
  {
    var t := Apply(w, s, a);
    if a.SendFetch? { assert GoodServing(w, o, owners, s.requests[a.request].phase); }
    forall f | f in t.fetches && t.fetches[f].oid == o ensures GoodFetch(w, o, owners, t.fetches[f]) {
      if f in s.fetches { assert GoodFetch(w, o, owners, s.fetches[f]); }
    }
    FetchesStep(w, o, s, owners, t.fetches, t.cellOf);
  }

  lemma FetchStoreStep(w: World, o: ObjectId, s: State, owners: Owners, f: nat)
    requires GoodOrigin(w, o) && Inv(w, o, s, owners) && Enabled(w, s, FetchStore(f)) && s.fetches[f].oid == o
    ensures Inv(w, o, Apply(w, s, FetchStore(f)), owners)
  {
    var fetch := s.fetches[f];
    var store := s.store[FetchKey(fetch) := FetchOutcome(w, fetch).value];
    AcceptedFetchIsGood(w, o, owners, fetch);
    StoreStep(w, o, s, owners, store);
    FetchesStep(w, o, s.(store := store), owners, s.fetches - {f}, s.cellOf);
  }

  /** Below the wrap, invalidation moves to a generation nothing carries yet. */
  lemma FetchMismatchStep(w: World, o: ObjectId, s: State, owners: Owners, f: nat)
    requires Inv(w, o, s, owners) && Enabled(w, s, FetchMismatch(f)) && s.fetches[f].oid == o
    requires IndexAssumed(o, s, FetchMismatch(f))
    ensures Inv(w, o, Apply(w, s, FetchMismatch(f)), owners)
  {
    assert GoodFetch(w, o, owners, s.fetches[f]);
    EntryStep(w, o, s, owners, Invalidated(s.index[o]));
    FetchesStep(w, o, Bumped(s, o), owners, s.fetches[f := s.fetches[f].(bumped := true)], s.cellOf);
  }

  lemma BackgroundSteps(w: World, o: ObjectId, s: State, owners: Owners, a: Action)
    requires Inv(w, o, s, owners) && (a.Evict? || a.Touch? || a.OriginChange?) && Enabled(w, s, a)
    requires StepObject(w, s, a) == o
    ensures Inv(w, o, Apply(w, s, a), owners)
  {
    match a {
      case Evict(k) => StoreStep(w, o, s, owners, s.store - {k});
      case Touch(_, now) => if o in s.index { EntryStep(w, o, s, owners, Touched(s.index[o], now)); }
      case OriginChange(_, _) =>
    }
  }

  lemma OwnStepKeepsInvariant(w: World, o: ObjectId, s: State, owners: Owners, a: Action)
    requires GoodOrigin(w, o) && Structure(s) && Inv(w, o, s, owners) && Enabled(w, s, a) && StepObject(w, s, a) == o
    requires IndexAssumed(o, s, a) && !a.ProbePut?
    ensures Inv(w, o, Apply(w, s, a), owners)
  {
    if a.Arrive? || a.ReadIndex? || a.ReadCell? || a.ProbeResponse? {
      LookupSteps(w, o, s, owners, a);
    } else if a.TakeCell? || a.StartProbe? || a.ProbeFail? {
      CellSteps(w, o, s, owners, a);
    } else if a.MovePipe? || a.SliceHit? || a.SliceFail? {
      PipeSteps(w, o, s, owners, a);
    } else if a.FetchStore? {
      FetchStoreStep(w, o, s, owners, a.fetch);
    } else if a.FetchMismatch? {
      FetchMismatchStep(w, o, s, owners, a.fetch);
    } else if IsFetchStep(a) {
      FetchSteps(w, o, s, owners, a);
    } else {
      BackgroundSteps(w, o, s, owners, a);
    }
  }

  lemma OtherStepKeepsInvariant(w: World, o: ObjectId, s: State, owners: Owners, a: Action)
    requires Structure(s) && Inv(w, o, s, owners) && Enabled(w, s, a) && StepObject(w, s, a) != o
    ensures NextOwners(o, s, owners, a) == owners && Inv(w, o, Apply(w, s, a), owners)
  {
    OthersAreUntouched(w, s, a, o);
    SameForKeepsInvariant(w, o, s, Apply(w, s, a), owners);
  }

  /** Every step keeps the invariant, if its put agrees and the index hypotheses hold. */
  lemma StepKeepsInvariant(w: World, o: ObjectId, s: State, owners: Owners, a: Action)
    requires GoodOrigin(w, o) && Structure(s) && Inv(w, o, s, owners) && Enabled(w, s, a)
    requires IndexAssumed(o, s, a) && PutAgrees(w, o, s, owners, a)
    ensures Inv(w, o, Apply(w, s, a), NextOwners(o, s, owners, a))
  {
    if StepObject(w, s, a) != o {
      OtherStepKeepsInvariant(w, o, s, owners, a);
    } else if a.ProbePut? {
      PutStep(w, o, s, owners, a);
    } else {
      OwnStepKeepsInvariant(w, o, s, owners, a);
    }
  }

  // -------------------------------------------------------------- every run

  lemma {:induction false} ReachableInvariant(w: World, o: ObjectId, actions: seq<Action>)
    requires GoodOrigin(w, o) && After(w, actions).Some? && KeepsTo(w, IndexRule(o), actions)
    requires AllPutsAgree(w, o, actions)
    ensures Inv(w, o, After(w, actions).value, OwnersAfter(w, o, actions))
  {
    if actions != [] {
      var before, last := actions[..|actions| - 1], actions[|actions| - 1];
      ReachableInvariant(w, o, before);
      ReachableStructure(w, before);
      StepKeepsInvariant(w, o, After(w, before).value, OwnersAfter(w, o, before), last);
    }
  }

  /** The origin served version `v` of `o` at some point of the run. */
  ghost predicate WasCurrent(w: World, actions: seq<Action>, o: ObjectId, v: Version) {
    exists n: nat ::
      && n <= |actions|
      && After(w, actions[..n]).Some?
      && Current(After(w, actions[..n]).value, o) == v
  }

  lemma WasCurrentGrows(w: World, actions: seq<Action>, o: ObjectId, v: Version)
    requires actions != [] && WasCurrent(w, actions[..|actions| - 1], o, v)
    ensures WasCurrent(w, actions, o, v)
  {
    var before := actions[..|actions| - 1];
    var n: nat :| && n <= |before| && After(w, before[..n]).Some?
                  && Current(After(w, before[..n]).value, o) == v;
    assert before[..n] == actions[..n];
  }

  /** Whatever answer a request holds, the origin gave it at some point. */
  lemma {:induction false} AnswersWereCurrent(w: World, actions: seq<Action>, r: nat)
    requires After(w, actions).Some? && r in After(w, actions).value.requests
    requires After(w, actions).value.requests[r].phase.Fetched?
    ensures var request := After(w, actions).value.requests[r];
            WasCurrent(w, actions, request.oid, request.phase.version)
  {
    var before, last := actions[..|actions| - 1], actions[|actions| - 1];
    var s := After(w, before).value;
    var request := After(w, actions).value.requests[r];
    AnswerIsNewOrKept(w, s, last, r);
    if r in s.requests && s.requests[r] == request {
      AnswersWereCurrent(w, before, r);
      WasCurrentGrows(w, actions, request.oid, request.phase.version);
    }
  }

  lemma AnswerIsNewOrKept(w: World, s: State, a: Action, r: nat)
    requires Enabled(w, s, a) && r in Apply(w, s, a).requests && Apply(w, s, a).requests[r].phase.Fetched?
    ensures var request := Apply(w, s, a).requests[r];
            || (r in s.requests && s.requests[r] == request)
            || request.phase.version == Current(s, request.oid)
  {
    if IsFetchStep(a) {
      FetchStepsKeepRequests(w, s, a);
    } else if a.MovePipe? || a.SliceHit? || a.SliceFail? {
      PipesMoveTheirOwn(w, s, a);
    } else if !(a.Evict? || a.Touch? || a.OriginChange? || a.Purge?) {
      LookupsMoveTheirOwn(w, s, a);
    }
  }

  lemma FetchStepsKeepRequests(w: World, s: State, a: Action)
    requires Enabled(w, s, a) && IsFetchStep(a)
    ensures Apply(w, s, a).requests == s.requests
  {
  }

  lemma PipesMoveTheirOwn(w: World, s: State, a: Action)
    requires Enabled(w, s, a) && (a.MovePipe? || a.SliceHit? || a.SliceFail?)
    ensures var moved := Apply(w, s, a).requests[a.request];
            Apply(w, s, a).requests == s.requests[a.request := moved] && moved.phase.Serving?
  {
  }

  predicate IsLookupStep(a: Action) {
    || a.Arrive? || a.ReadIndex? || a.TakeCell? || a.ReadCell? || a.StartProbe? || a.ProbeResponse? || a.ProbeFail?
    || a.ProbePut?
  }

  lemma LookupsMoveTheirOwn(w: World, s: State, a: Action)
    requires Enabled(w, s, a) && IsLookupStep(a)
    ensures var moved := Apply(w, s, a).requests[a.request];
            && Apply(w, s, a).requests == s.requests[a.request := moved]
            && (moved.phase.Fetched? ==> moved.phase.version == Current(s, moved.oid))
  {
    match a
    case TakeCell(_, _) => TakingMovesItsOwn(w, s, a);
    case StartProbe(_) => StartingMovesItsOwn(w, s, a);
    case ProbeFail(_) => FailingMovesItsOwn(w, s, a);
    case ProbePut(_, _, _, _) => PuttingMovesItsOwn(w, s, a);
    case _ =>
  }

  /** The step touches one request, and does not leave it with an answer in hand. */
  predicate MovesItsOwn(w: World, s: State, a: Action)
    requires Enabled(w, s, a) && IsLookupStep(a)
  {
    var t := Apply(w, s, a);
    a.request in t.requests &&
    t.requests == s.requests[a.request := t.requests[a.request]] && !t.requests[a.request].phase.Fetched?
  }

  lemma TakingMovesItsOwn(w: World, s: State, a: Action)
    requires Enabled(w, s, a) && a.TakeCell?
    ensures MovesItsOwn(w, s, a)
  {
    TakerIsOnCell(w, s, a);
  }

  lemma TakerIsOnCell(w: World, s: State, a: Action)
    requires Enabled(w, s, a) && a.TakeCell?
    ensures var o := s.requests[a.request].oid;
            var cell := if o in s.cellOf then s.cellOf[o] else a.newCell;
            Apply(w, s, a).requests == s.requests[a.request := s.requests[a.request].(phase := OnCell(cell))]
  {
    var r, c, o := a.request, a.newCell, s.requests[a.request].oid;
    if o in s.cellOf {
      assert Apply(w, s, a) == WithPhase(s, r, OnCell(s.cellOf[o]));
    } else {
      assert Apply(w, s, a) == WithCell(WithPhase(s, r, OnCell(c)), r, c, Empty).(cellOf := s.cellOf[o := c]);
    }
  }

  lemma StartingMovesItsOwn(w: World, s: State, a: Action)
    requires Enabled(w, s, a) && a.StartProbe?
    ensures MovesItsOwn(w, s, a)
  {
  }

  lemma FailingMovesItsOwn(w: World, s: State, a: Action)
    requires Enabled(w, s, a) && a.ProbeFail?
    ensures MovesItsOwn(w, s, a)
  {
  }

  lemma PuttingMovesItsOwn(w: World, s: State, a: Action)
    requires Enabled(w, s, a) && a.ProbePut?
    ensures MovesItsOwn(w, s, a)
  {
  }

  lemma {:induction false} OwnersWereCurrent(w: World, o: ObjectId, actions: seq<Action>, g: u32)
    requires After(w, actions).Some? && g in OwnersAfter(w, o, actions)
    ensures WasCurrent(w, actions, o, OwnersAfter(w, o, actions)[g])
  {
    var before, last := actions[..|actions| - 1], actions[|actions| - 1];
    var s, owners := After(w, before).value, OwnersAfter(w, o, before);
    if IsPut(o, s, last) && !IsFresh(s, o) && g == StoredGeneration(s, o) {
      AnswersWereCurrent(w, before, last.request);
    } else {
      OwnersWereCurrent(w, o, before, g);
    }
    WasCurrentGrows(w, actions, o, OwnersAfter(w, o, actions)[g]);
  }

  // --------------------------------------------------------- no mixed response

  /** The response sends, in order and from the first byte on, the wanted bytes of version `v`. */
  predicate Sends(w: World, o: ObjectId, phase: Phase, v: Version)
    requires phase.Serving?
  {
    && Describes(w, o, phase.meta, v)
    && phase.wanted.Valid() && phase.wanted.end < |w.content(o, v)|
    && var body := w.content(o, v)[phase.wanted.start..phase.wanted.end + 1];
       && Flatten(phase.pipe.emitted) <= body
       && (phase.pipe.ending.Complete? ==> Flatten(phase.pipe.emitted) == body)
  }

  lemma GoodServingSends(w: World, o: ObjectId, owners: Owners, phase: Phase)
    requires phase.Serving? && GoodServing(w, o, owners, phase)
    ensures Sends(w, o, phase, owners[phase.meta.generation])
  {
    P.FaithfulBody(PipeConfig(w, phase.wanted), w.content(o, owners[phase.meta.generation]), phase.pipe);
  }

  /**
    However the origin moves: if all puts agree, every response for the object, at every
    moment, has sent a prefix of the requested range of one version; a response that ends
    without an error has sent all of it; and the origin served that version at some point.
   */
  lemma AgreeingPutsNeverMix(w: World, actions: seq<Action>, r: nat)
    requires After(w, actions).Some?
    requires r in After(w, actions).value.requests
    requires After(w, actions).value.requests[r].phase.Serving?
    requires var o := After(w, actions).value.requests[r].oid;
             GoodOrigin(w, o) && KeepsTo(w, IndexRule(o), actions) && AllPutsAgree(w, o, actions)
    ensures var request := After(w, actions).value.requests[r];
            exists v :: WasCurrent(w, actions, request.oid, v) && Sends(w, request.oid, request.phase, v)
  {
    var request := After(w, actions).value.requests[r];
    var o := request.oid;
    var owners := OwnersAfter(w, o, actions);
    ReachableInvariant(w, o, actions);
    assert GoodServing(w, o, owners, request.phase);
    GoodServingSends(w, o, owners, request.phase);
    OwnersWereCurrent(w, o, actions, request.phase.meta.generation);
  }

  // ------------------------------------------------------------ exactly when

  /** Everything that carries a generation of `o` is of its owner: the fresh entry, slices and plans. */
  predicate Pure(w: World, o: ObjectId, s: State, owners: Owners) {
    && (IsFresh(s, o) ==> Owned(w, o, owners, s.index[o]))
    && (forall k :: k in s.store && k.oid == o ==> GoodSlice(w, o, owners, k, s.store[k]))
    && (forall r :: r in s.requests && Plans(s.requests[r], o) ==> Owned(w, o, owners, s.requests[r].phase.meta))
  }

  predicate Plans(request: Request, o: ObjectId) { request.oid == o && request.phase.Serving? }

  /** The object was pure at every point of the run. */
  predicate AlwaysPure(w: World, o: ObjectId, actions: seq<Action>)
    requires After(w, actions).Some?
  {
    && Pure(w, o, After(w, actions).value, OwnersAfter(w, o, actions))
    && (actions != [] ==> AlwaysPure(w, o, actions[..|actions| - 1]))
  }

  lemma {:induction false} AgreeingPutsStayPure(w: World, o: ObjectId, actions: seq<Action>)
    requires GoodOrigin(w, o) && After(w, actions).Some? && KeepsTo(w, IndexRule(o), actions)
    requires AllPutsAgree(w, o, actions)
    ensures AlwaysPure(w, o, actions)
  {
    ReachableInvariant(w, o, actions);
    var s, owners := After(w, actions).value, OwnersAfter(w, o, actions);
    forall r | r in s.requests && Plans(s.requests[r], o) ensures Owned(w, o, owners, s.requests[r].phase.meta) {
      assert GoodServing(w, o, owners, s.requests[r].phase);
    }
    if actions != [] { AgreeingPutsStayPure(w, o, actions[..|actions| - 1]); }
  }

  /** A put over a fresh entry that does not agree leaves the entry or the slice impure. */
  lemma PureAfterPutMeansItAgreed(w: World, o: ObjectId, s: State, owners: Owners, a: Action)
    requires Enabled(w, s, a) && Pure(w, o, s, owners) && Pure(w, o, Apply(w, s, a), NextOwners(o, s, owners, a))
    ensures PutAgrees(w, o, s, owners, a)
  {
    if IsPut(o, s, a) && IsFresh(s, o) {
      var t := Apply(w, s, a);
      var slice := ProbeIndex(w.sliceSize, s.requests[a.request].spec);
      var k := SliceKey(o, s.index[o].generation, slice);
      assert k in t.store && GoodSlice(w, o, owners, k, t.store[k]);
      assert Owned(w, o, owners, t.index[o]);
    }
  }

  lemma {:induction false} PurePutsAgree(w: World, o: ObjectId, actions: seq<Action>)
    requires After(w, actions).Some? && AlwaysPure(w, o, actions)
    ensures AllPutsAgree(w, o, actions)
  {
    if actions != [] {
      var before := actions[..|actions| - 1];
      PurePutsAgree(w, o, before);
      PureAfterPutMeansItAgreed(w, o, After(w, before).value, OwnersAfter(w, o, before), actions[|actions| - 1]);
    }
  }

  /**
    The exact condition: along a run every slice, plan and fresh entry of the object is of
    the version that owns its generation if and only if every put over a fresh entry agrees.
   */
  lemma PureIffPutsAgree(w: World, o: ObjectId, actions: seq<Action>)
    requires GoodOrigin(w, o) && After(w, actions).Some? && KeepsTo(w, IndexRule(o), actions)
    ensures AlwaysPure(w, o, actions) <==> AllPutsAgree(w, o, actions)
  {
    if AllPutsAgree(w, o, actions) { AgreeingPutsStayPure(w, o, actions); }
    if AlwaysPure(w, o, actions) { PurePutsAgree(w, o, actions); }
  }

  // ------------------------------------------------------------ generations

  /** An entry, once there, stays, and its generation does not go down. */
  predicate NotBelow(s: State, t: State, o: ObjectId) {
    o in s.index ==> o in t.index && s.index[o].generation <= t.index[o].generation
  }

  lemma OwnGenerationStep(w: World, s: State, a: Action, o: ObjectId)
    requires Enabled(w, s, a) && IndexAssumed(o, s, a)
    requires a.ProbePut? || a.FetchMismatch? || a.Touch?
    ensures NotBelow(s, Apply(w, s, a), o)
  {
  }

  lemma GenerationStep(w: World, s: State, a: Action, o: ObjectId)
    requires Structure(s) && Enabled(w, s, a) && IndexAssumed(o, s, a)
    ensures NotBelow(s, Apply(w, s, a), o)
  {
    if StepObject(w, s, a) != o {
      OthersAreUntouched(w, s, a, o);
    } else if a.ProbePut? || a.FetchMismatch? || a.Touch? {
      OwnGenerationStep(w, s, a, o);
    } else if IsLookupStep(a) {
      LookupsKeepTheIndex(w, s, a);
    } else if a.MovePipe? || a.SliceHit? || a.SliceFail? {
      PipesKeepTheIndex(w, s, a);
    }
  }

  lemma LookupsKeepTheIndex(w: World, s: State, a: Action)
    requires Enabled(w, s, a) && IsLookupStep(a) && !a.ProbePut?
    ensures Apply(w, s, a).index == s.index
  {
    if a.TakeCell? || a.StartProbe? || a.ProbeFail? { CellsKeepTheIndex(w, s, a); }
  }

  lemma CellsKeepTheIndex(w: World, s: State, a: Action)
    requires Enabled(w, s, a) && (a.TakeCell? || a.StartProbe? || a.ProbeFail?)
    ensures Apply(w, s, a).index == s.index
  {
  }

  lemma PipesKeepTheIndex(w: World, s: State, a: Action)
    requires Enabled(w, s, a) && (a.MovePipe? || a.SliceHit? || a.SliceFail?)
    ensures Apply(w, s, a).index == s.index
  {
  }

  lemma {:induction false} PrefixRuns(w: World, actions: seq<Action>, n: nat)
    requires n <= |actions| && After(w, actions).Some?
    ensures After(w, actions[..n]).Some?
  {
    if n == |actions| {
      assert actions[..n] == actions;
    } else {
      PrefixRuns(w, actions[..|actions| - 1], n);
      assert actions[..|actions| - 1][..n] == actions[..n];
    }
  }

  /** However the origin moves, the recorded generation of an object never decreases. */
  lemma {:induction false} GenerationNeverDecreases(w: World, actions: seq<Action>, n: nat, o: ObjectId)
    requires n <= |actions| && After(w, actions).Some? && KeepsTo(w, IndexRule(o), actions)
    ensures After(w, actions[..n]).Some?
    ensures NotBelow(After(w, actions[..n]).value, After(w, actions).value, o)
    decreases |actions|
  {
    PrefixRuns(w, actions, n);
    if n == |actions| {
      assert actions[..n] == actions;
    } else {
      var before, last := actions[..|actions| - 1], actions[|actions| - 1];
      GenerationNeverDecreases(w, before, n, o);
      assert before[..n] == actions[..n];
      ReachableStructure(w, before);
      GenerationStep(w, After(w, before).value, last, o);
    }
  }
}
