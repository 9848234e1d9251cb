/**
  What holds in every run of the protocol, whatever the origin does: how requests refer
  to metadata cells, and that a step on one object leaves every other object alone.
 */
module ProtocolCells {
  import opened Core
  import opened Meta
  import opened Range
  import opened Protocol

  predicate Probes(request: Request) { request.phase.Fetching? || request.phase.Fetched? }

  predicate ProbeAlike(a: Request, b: Request) { Probes(a) && Probes(b) && a.phase.cell == b.phase.cell }

  /** The cell a request holds is its object's; the one it probes for is marked as probed. */
  predicate GoodCellRef(cells: map<nat, (ObjectId, Cell)>, request: Request) {
    && (request.spec.Some? ==> WellFormed(request.spec.value))
    && (request.phase.OnCell? || Probes(request) ==>
          request.phase.cell in cells && cells[request.phase.cell].0 == request.oid)
    && (Probes(request) ==> cells[request.phase.cell].1.Probing?)
  }

  /** At most one request probes for a cell, and every reference to a cell is good. */
  predicate Structure(s: State) {
    && (forall r :: r in s.requests ==> GoodCellRef(s.cells, s.requests[r]))
    && (forall r, q :: r in s.requests && q in s.requests && ProbeAlike(s.requests[r], s.requests[q]) ==> r == q)
    && (forall o :: o in s.cellOf ==> s.cellOf[o] in s.cells && s.cells[s.cellOf[o]].0 == o)
  }

  /** A request moves on, and probes only if it did before, for the same cell. */
  lemma RequestKeepsStructure(s: State, r: nat, request: Request)
    requires Structure(s) && GoodCellRef(s.cells, request)
    requires Probes(request) ==>
               r in s.requests && Probes(s.requests[r]) && s.requests[r].phase.cell == request.phase.cell
    ensures Structure(s.(requests := s.requests[r := request]))
  {
  }

  /** A cell and the one request that probes for it, before or after, move on together. */
  lemma ProberKeepsStructure(s: State, r: nat, c: nat, cell: Cell, request: Request)
    requires Structure(s) && r in s.requests && s.requests[r].oid == request.oid
    requires c in s.cells && s.cells[c].0 == request.oid
    requires forall q :: q in s.requests && q != r && Probes(s.requests[q]) ==> s.requests[q].phase.cell != c
    requires GoodCellRef(s.cells[c := (request.oid, cell)], request)
    requires Probes(request) ==> request.phase.cell == c
    ensures Structure(s.(cells := s.cells[c := (request.oid, cell)], requests := s.requests[r := request]))
  {
    var t := s.(cells := s.cells[c := (request.oid, cell)], requests := s.requests[r := request]);
    forall q | q in t.requests ensures GoodCellRef(t.cells, t.requests[q]) {
      if q != r { assert GoodCellRef(s.cells, s.requests[q]); }
    }
  }

  /** A new cell is made, which nobody refers to yet. */
  lemma NewCellKeepsStructure(s: State, o: ObjectId, c: nat)
    requires Structure(s) && c !in s.cells
    ensures Structure(s.(cells := s.cells[c := (o, Empty)], cellOf := s.cellOf[o := c]))
  {
    var cells := s.cells[c := (o, Empty)];
    forall r | r in s.requests ensures GoodCellRef(cells, s.requests[r]) {
      assert GoodCellRef(s.cells, s.requests[r]);
    }
  }

  /** Structure says nothing about the origin, the index, the store or the fetches. */
  lemma SameRequestsAndCells(s: State, t: State)
    requires Structure(s) && t.requests == s.requests && t.cells == s.cells && t.cellOf.Keys <= s.cellOf.Keys
    requires forall o :: o in t.cellOf ==> t.cellOf[o] == s.cellOf[o]
    ensures Structure(t)
  {
  }

  lemma PlannedHasNoCell(spec: Option<RangeSpec>, meta: ObjectMeta)
    ensures Planned(spec, meta).Serving? || Planned(spec, meta).Unserved?
  {
  }

  lemma LookupsKeepStructure(w: World, s: State, a: Action)
    requires Structure(s) && Enabled(w, s, a)
    requires a.Arrive? || a.ReadIndex? || a.ReadCell? || a.ProbeResponse? || a.TakeCell?
    ensures Structure(Apply(w, s, a))
  {
    if a.request in s.requests { assert GoodCellRef(s.cells, s.requests[a.request]); }
    match a {
      case Arrive(r, o, spec) => RequestKeepsStructure(s, r, Request(o, spec, Lookup));
      case ReadIndex(r) =>
        RequestKeepsStructure(s, r, Apply(w, s, a).requests[r]);
      case ReadCell(r) =>
        PlannedHasNoCell(s.requests[r].spec, s.cells[s.requests[r].phase.cell].1.meta);
        RequestKeepsStructure(s, r, Apply(w, s, a).requests[r]);
      case ProbeResponse(r) => RequestKeepsStructure(s, r, Apply(w, s, a).requests[r]);
      case TakeCell(r, c) => TakeCellKeepsStructure(w, s, r, c);
    }
  }

  lemma TakeCellKeepsStructure(w: World, s: State, r: nat, c: nat)
    requires Structure(s) && Enabled(w, s, TakeCell(r, c))
    ensures Structure(Apply(w, s, TakeCell(r, c)))
  {
    var o := s.requests[r].oid;
    assert GoodCellRef(s.cells, s.requests[r]);
    if o in s.cellOf {
      RequestKeepsStructure(s, r, s.requests[r].(phase := OnCell(s.cellOf[o])));
    } else {
      NewCellKeepsStructure(s, o, c);
      RequestKeepsStructure(s.(cells := s.cells[c := (o, Empty)], cellOf := s.cellOf[o := c]), r,
                            s.requests[r].(phase := OnCell(c)));
    }
  }

  lemma ProbesKeepStructure(w: World, s: State, a: Action)
    requires Structure(s) && Enabled(w, s, a)
    requires a.StartProbe? || a.ProbeFail? || a.ProbePut?
    ensures Structure(Apply(w, s, a))
  {
    var r, request := a.request, s.requests[a.request];
    assert GoodCellRef(s.cells, request);
    var c, t := request.phase.cell, Apply(w, s, a);
    forall q | q in s.requests && q != r && Probes(s.requests[q]) ensures s.requests[q].phase.cell != c {
      assert GoodCellRef(s.cells, s.requests[q]);
    }
    if a.ProbePut? {
      PlannedHasNoCell(request.spec, t.cells[c].1.meta);
    }
    ProberKeepsStructure(s, r, c, t.cells[c].1, t.requests[r]);
    SameRequestsAndCells(s.(cells := t.cells, requests := t.requests), t);
  }

  lemma StepKeepsStructure(w: World, s: State, a: Action)
    requires Structure(s) && Enabled(w, s, a)
    ensures Structure(Apply(w, s, a))
  {
    if a.Arrive? || a.ReadIndex? || a.ReadCell? || a.ProbeResponse? || a.TakeCell? {
      LookupsKeepStructure(w, s, a);
    } else if a.StartProbe? || a.ProbeFail? || a.ProbePut? {
      ProbesKeepStructure(w, s, a);
    } else if a.MovePipe? || a.SliceHit? || a.SliceFail? {
      assert GoodCellRef(s.cells, s.requests[a.request]);
      RequestKeepsStructure(s, a.request, Apply(w, s, a).requests[a.request]);
    } else {
      SameRequestsAndCells(s, Apply(w, s, a));
    }
  }

  lemma {:induction false} ReachableStructure(w: World, actions: seq<Action>)
    requires After(w, actions).Some?
    ensures Structure(After(w, actions).value)
  {
    if actions != [] {
      ReachableStructure(w, actions[..|actions| - 1]);
      StepKeepsStructure(w, After(w, actions[..|actions| - 1]).value, actions[|actions| - 1]);
    }
  }

  // --------------------------------------------------------- one object at a time

  /** The object a step is about. */
  function StepObject(w: World, s: State, a: Action): ObjectId
    requires Enabled(w, s, a)
  {
    match a
    case Arrive(_, o, _) => o
    case FetchResponse(f) => s.fetches[f].oid
    case FetchStore(f) => s.fetches[f].oid
    case FetchMismatch(f) => s.fetches[f].oid
    case FetchDrop(f) => s.fetches[f].oid
    case DropCell(f) => s.fetches[f].oid
    case Evict(k) => k.oid
    case Touch(o, _) => o
    case OriginChange(o, _) => o
    case Purge(o) => o
    case _ => s.requests[a.request].oid
  }

  /** The two maps agree on the entries with some property. */
  predicate Same<K, V(==)>(m: map<K, V>, n: map<K, V>, p: V -> bool) {
    && (forall k :: k in m && p(m[k]) ==> k in n && n[k] == m[k])
    && (forall k :: k in n && p(n[k]) ==> k in m && m[k] == n[k])
  }

  function OfRequest(o: ObjectId): Request -> bool { (request: Request) => request.oid == o }

  function OfFetch(o: ObjectId): Fetch -> bool { (fetch: Fetch) => fetch.oid == o }

  function OfCell(o: ObjectId): ((ObjectId, Cell)) -> bool { (cell: (ObjectId, Cell)) => cell.0 == o }

  predicate SameSlices(s: map<SliceKey, seq<byte>>, t: map<SliceKey, seq<byte>>, o: ObjectId) {
    && (forall k :: k in s && k.oid == o ==> k in t && t[k] == s[k])
    && (forall k :: k in t && k.oid == o ==> k in s && s[k] == t[k])
  }

  /** The two states agree on everything about `o`. */
  predicate SameFor(s: State, t: State, o: ObjectId) {
    && Current(s, o) == Current(t, o)
    && (o in s.index <==> o in t.index) && (o in s.index ==> s.index[o] == t.index[o])
    && SameSlices(s.store, t.store, o)
    && Same(s.cells, t.cells, OfCell(o))
    && Same(s.requests, t.requests, OfRequest(o))
    && Same(s.fetches, t.fetches, OfFetch(o))
  }

  lemma SameUpdate<K, V>(m: map<K, V>, k: K, v: V, p: V -> bool)
    requires (k in m ==> !p(m[k])) && !p(v)
    ensures Same(m, m[k := v], p)
  {
  }

  lemma SameRemove<K, V>(m: map<K, V>, k: K, p: V -> bool)
    requires k in m ==> !p(m[k])
    ensures Same(m, m - {k}, p)
  {
  }

  lemma RequestElsewhere(s: State, r: nat, request: Request, o: ObjectId)
    requires request.oid != o && (r in s.requests ==> s.requests[r].oid != o)
    ensures SameFor(s, s.(requests := s.requests[r := request]), o)
  {
    SameUpdate(s.requests, r, request, OfRequest(o));
  }

  lemma CellElsewhere(s: State, c: nat, cell: (ObjectId, Cell), cellOf: map<ObjectId, nat>, o: ObjectId)
    requires cell.0 != o && (c in s.cells ==> s.cells[c].0 != o)
    ensures SameFor(s, s.(cells := s.cells[c := cell], cellOf := cellOf), o)
  {
    SameUpdate(s.cells, c, cell, OfCell(o));
  }

  lemma FetchElsewhere(s: State, f: nat, fetch: Fetch, o: ObjectId)
    requires fetch.oid != o && (f in s.fetches ==> s.fetches[f].oid != o)
    ensures SameFor(s, s.(fetches := s.fetches[f := fetch]), o)
    ensures SameFor(s, s.(fetches := s.fetches - {f}), o)
  {
    SameUpdate(s.fetches, f, fetch, OfFetch(o));
    SameRemove(s.fetches, f, OfFetch(o));
  }

  lemma SameForChains(s: State, t: State, u: State, o: ObjectId)
    requires SameFor(s, t, o) && SameFor(t, u, o)
    ensures SameFor(s, u, o)
  {
  }

  /** Only the index, the store, the origin or the cell map of another object changes. */
  lemma RecordElsewhere(s: State, t: State, o: ObjectId)
    requires t.cells == s.cells && t.requests == s.requests && t.fetches == s.fetches
    requires Current(s, o) == Current(t, o) && SameSlices(s.store, t.store, o)
    requires (o in s.index <==> o in t.index) && (o in s.index ==> s.index[o] == t.index[o])
    ensures SameFor(s, t, o)
  {
  }

  lemma CellStepElsewhere(w: World, s: State, a: Action, o: ObjectId)
    requires Structure(s) && Enabled(w, s, a) && StepObject(w, s, a) != o
    requires a.TakeCell? || a.StartProbe? || a.ProbeFail?
    ensures SameFor(s, Apply(w, s, a), o)
  {
    var r, t := a.request, Apply(w, s, a);
    assert GoodCellRef(s.cells, s.requests[r]);
    if a.TakeCell? && s.requests[r].oid in s.cellOf {
      RequestElsewhere(s, r, t.requests[r], o);
    } else {
      var cell := if a.TakeCell? then a.newCell else s.requests[r].phase.cell;
      CellElsewhere(s, cell, t.cells[cell], t.cellOf, o);
      var s1 := s.(cells := t.cells, cellOf := t.cellOf);
      RequestElsewhere(s1, r, t.requests[r], o);
      SameForChains(s, s1, t, o);
    }
  }

  lemma PutElsewhere(w: World, s: State, a: Action, o: ObjectId)
    requires Structure(s) && Enabled(w, s, a) && StepObject(w, s, a) != o && a.ProbePut?
    ensures SameFor(s, Apply(w, s, a), o)
  {
    var r, t := a.request, Apply(w, s, a);
    assert GoodCellRef(s.cells, s.requests[r]);
    var c := s.requests[r].phase.cell;
    CellElsewhere(s, c, t.cells[c], s.cellOf, o);
    var s1 := s.(cells := t.cells);
    RequestElsewhere(s1, r, t.requests[r], o);
    var s2 := s1.(requests := t.requests);
    SameForChains(s, s1, s2, o);
    RecordElsewhere(s2, t, o);
    SameForChains(s, s2, t, o);
  }

  lemma FetchMoveElsewhere(w: World, s: State, a: Action, o: ObjectId)
    requires Enabled(w, s, a) && StepObject(w, s, a) != o
    requires a.SendFetch? || a.FetchResponse? || a.FetchDrop?
    ensures SameFor(s, Apply(w, s, a), o)
  {
    var t, f := Apply(w, s, a), a.fetch;
    FetchElsewhere(s, f, if f in t.fetches then t.fetches[f] else s.fetches[f], o);
  }

  lemma FetchStoreElsewhere(w: World, s: State, f: nat, o: ObjectId)
    requires Enabled(w, s, FetchStore(f)) && s.fetches[f].oid != o
    ensures SameFor(s, Apply(w, s, FetchStore(f)), o)
  {
    var fetch := s.fetches[f];
    var s1 := s.(fetches := s.fetches - {f});
    FetchElsewhere(s, f, fetch, o);
    var t := s1.(store := s.store[FetchKey(fetch) := FetchOutcome(w, fetch).value]);
    RecordElsewhere(s1, t, o);
    SameForChains(s, s1, t, o);
  }

  lemma FetchMismatchElsewhere(w: World, s: State, f: nat, o: ObjectId)
    requires Enabled(w, s, FetchMismatch(f)) && s.fetches[f].oid != o
    ensures SameFor(s, Apply(w, s, FetchMismatch(f)), o)
  {
    var fetch := s.fetches[f].(bumped := true);
    var s1 := s.(fetches := s.fetches[f := fetch]);
    FetchElsewhere(s, f, fetch, o);
    var t := s1.(index := Bumped(s, fetch.oid).index);
    RecordElsewhere(s1, t, o);
    SameForChains(s, s1, t, o);
  }

  lemma DropCellElsewhere(w: World, s: State, f: nat, o: ObjectId)
    requires Enabled(w, s, DropCell(f)) && s.fetches[f].oid != o
    ensures SameFor(s, Apply(w, s, DropCell(f)), o)
  {
    FetchElsewhere(s, f, s.fetches[f], o);
  }

  lemma PurgeElsewhere(w: World, s: State, x: ObjectId, o: ObjectId)
    requires Enabled(w, s, Purge(x)) && x != o
    ensures SameFor(s, Apply(w, s, Purge(x)), o)
  {
    RecordElsewhere(s, Apply(w, s, Purge(x)), o);
  }

  lemma BackgroundElsewhere(w: World, s: State, a: Action, o: ObjectId)
    requires Enabled(w, s, a) && StepObject(w, s, a) != o
    requires a.Evict? || a.Touch? || a.OriginChange?
    ensures SameFor(s, Apply(w, s, a), o)
  {
    RecordElsewhere(s, Apply(w, s, a), o);
  }

  lemma RequestMoveElsewhere(w: World, s: State, a: Action, o: ObjectId)
    requires Enabled(w, s, a) && StepObject(w, s, a) != o
    requires a.Arrive? || a.ReadIndex? || a.ReadCell? || a.ProbeResponse? || a.MovePipe? || a.SliceHit? || a.SliceFail?
    ensures SameFor(s, Apply(w, s, a), o)
  {
    RequestElsewhere(s, a.request, Apply(w, s, a).requests[a.request], o);
  }

  predicate IsFetchStep(a: Action) {
    a.SendFetch? || a.FetchResponse? || a.FetchDrop? || a.FetchStore? || a.FetchMismatch? || a.DropCell?
  }

  lemma FetchStepElsewhere(w: World, s: State, a: Action, o: ObjectId)
    requires Enabled(w, s, a) && StepObject(w, s, a) != o && IsFetchStep(a)
    ensures SameFor(s, Apply(w, s, a), o)
  {
    match a {
      case FetchStore(f) => FetchStoreElsewhere(w, s, f, o);
      case FetchMismatch(f) => FetchMismatchElsewhere(w, s, f, o);
      case DropCell(f) => DropCellElsewhere(w, s, f, o);
      case _ => FetchMoveElsewhere(w, s, a, o);
    }
  }

  /** A step on one object leaves every other object as it was. */
  lemma OthersAreUntouched(w: World, s: State, a: Action, o: ObjectId)
    requires Structure(s) && Enabled(w, s, a) && StepObject(w, s, a) != o
    ensures SameFor(s, Apply(w, s, a), o)
  {
    if IsFetchStep(a) {
      FetchStepElsewhere(w, s, a, o);
    } else if a.TakeCell? || a.StartProbe? || a.ProbeFail? {
      CellStepElsewhere(w, s, a, o);
    } else if a.ProbePut? {
      PutElsewhere(w, s, a, o);
    } else if a.Purge? {
      PurgeElsewhere(w, s, a.oid, o);
    } else if a.Evict? || a.Touch? || a.OriginChange? {
      BackgroundElsewhere(w, s, a, o);
    } else {
      RequestMoveElsewhere(w, s, a, o);
    }
  }
}
