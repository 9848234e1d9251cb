/**
  When the origin may move: two conditions under which every put agrees, and with them
  the theorem that no response mixes two versions.
 */
module ProtocolOrigin {
  import opened Core
  import opened Meta
  import opened Range
  import opened Protocol
  import opened ProtocolCells
  import opened ProtocolSafety

  /** Answers held are current, and so is the owner of a fresh entry that might still be probed. */
  predicate Timely(o: ObjectId, s: State, owners: Owners) {
    && (forall r :: r in s.requests && s.requests[r].oid == o && s.requests[r].phase.Fetched? ==>
          s.requests[r].phase.version == Current(s, o))
    && (IsFresh(s, o) && MightBeProbed(s, o) ==>
          s.index[o].generation in owners && owners[s.index[o].generation] == Current(s, o))
  }

  lemma TimelyPutsAgree(w: World, o: ObjectId, s: State, owners: Owners, a: Action)
    requires Timely(o, s, owners)
    ensures PutAgrees(w, o, s, owners, a)
  {
    if IsPut(o, s, a) && IsFresh(s, o) {
      assert MightProbe(s, s.requests[a.request]);
    }
  }

  /** No request becomes one that might probe a fresh entry. */
  predicate LookersOnlyLeave(o: ObjectId, s: State, t: State) {
    IsFresh(t, o) ==>
      forall r :: r in t.requests && t.requests[r].oid == o && MightProbe(t, t.requests[r]) ==>
        r in s.requests && s.requests[r].oid == o && MightProbe(s, s.requests[r])
  }

  predicate AnswersAreCurrent(o: ObjectId, t: State) {
    forall r :: r in t.requests && t.requests[r].oid == o && t.requests[r].phase.Fetched? ==>
      t.requests[r].phase.version == Current(t, o)
  }

  lemma LookersLeave(o: ObjectId, s: State, t: State, owners: Owners)
    requires Timely(o, s, owners) && Current(s, o) == Current(t, o)
    requires IsFresh(t, o) ==> IsFresh(s, o) && s.index[o].generation == t.index[o].generation
    requires LookersOnlyLeave(o, s, t) && AnswersAreCurrent(o, t)
    ensures Timely(o, t, owners)
  {
    if IsFresh(t, o) && MightBeProbed(t, o) {
      var r :| r in t.requests && t.requests[r].oid == o && MightProbe(t, t.requests[r]);
      assert MightBeProbed(s, o);
    }
  }

  /** One request moves, with the cells as they were. */
  lemma RequestMoves(o: ObjectId, s: State, owners: Owners, r: nat, request: Request)
    requires Timely(o, s, owners) && request.oid == o
    requires request.phase.Fetched? ==> request.phase.version == Current(s, o)
    requires MightProbe(s, request) && IsFresh(s, o) ==>
               r in s.requests && s.requests[r].oid == o && MightProbe(s, s.requests[r])
    ensures Timely(o, s.(requests := s.requests[r := request]), owners)
  {
    LookersLeave(o, s, s.(requests := s.requests[r := request]), owners);
  }

  /** A cell is made or rewritten; whoever waits on it might probe as before. */
  lemma CellMoves(o: ObjectId, s: State, owners: Owners, c: nat, cell: Cell, cellOf: map<ObjectId, nat>)
    requires Timely(o, s, owners) && (c in s.cells ==> !s.cells[c].1.Ready?)
    ensures Timely(o, s.(cells := s.cells[c := (o, cell)], cellOf := cellOf), owners)
  {
    LookersLeave(o, s, s.(cells := s.cells[c := (o, cell)], cellOf := cellOf), owners);
  }

  lemma LookupsStayTimely(w: World, o: ObjectId, s: State, owners: Owners, a: Action)
    requires Timely(o, s, owners) && Enabled(w, s, a) && StepObject(w, s, a) == o
    requires a.Arrive? || a.ReadIndex? || a.ReadCell? || a.ProbeResponse? || a.MovePipe? || a.SliceHit? || a.SliceFail?
    ensures Timely(o, Apply(w, s, a), owners)
  {
    RequestMoves(o, s, owners, a.request, Apply(w, s, a).requests[a.request]);
  }

  lemma CellsStayTimely(w: World, o: ObjectId, s: State, owners: Owners, a: Action)
    requires Structure(s) && Timely(o, s, owners) && Enabled(w, s, a) && StepObject(w, s, a) == o
    requires a.TakeCell? || a.StartProbe? || a.ProbeFail?
    ensures Timely(o, Apply(w, s, a), owners)
  {
    var r, t := a.request, Apply(w, s, a);
    assert GoodCellRef(s.cells, s.requests[r]);
    if a.TakeCell? && o in s.cellOf {
      RequestMoves(o, s, owners, r, t.requests[r]);
    } else {
      var c := if a.TakeCell? then a.newCell else s.requests[r].phase.cell;
      CellMoves(o, s, owners, c, t.cells[c].1, t.cellOf);
      RequestMoves(o, s.(cells := t.cells, cellOf := t.cellOf), owners, r, t.requests[r]);
    }
  }

  lemma PutStaysTimely(w: World, o: ObjectId, s: State, owners: Owners, a: Action)
    requires Structure(s) && Timely(o, s, owners) && Enabled(w, s, a) && IsPut(o, s, a)
    ensures Timely(o, Apply(w, s, a), NextOwners(o, s, owners, a))
  {
    var t := Apply(w, s, a);
    assert MightProbe(s, s.requests[a.request]);
    forall r | r in t.requests && t.requests[r].oid == o && t.requests[r].phase.Fetched?
      ensures t.requests[r].phase.version == Current(t, o)
    {
      assert r != a.request;
    }
  }

  /** Requests, cells and origin stay as they were, and the entry does not become fresh. */
  lemma LookersStay(o: ObjectId, s: State, t: State, owners: Owners)
    requires Timely(o, s, owners) && t.requests == s.requests && t.cells == s.cells && t.current == s.current
    requires IsFresh(t, o) ==> IsFresh(s, o) && s.index[o].generation == t.index[o].generation
    ensures Timely(o, t, owners)
  {
    assert forall r :: r in t.requests ==> MightProbe(t, t.requests[r]) == MightProbe(s, s.requests[r]);
    LookersLeave(o, s, t, owners);
  }

  lemma FetchStepsKeepCells(w: World, s: State, a: Action, o: ObjectId)
    requires Enabled(w, s, a) && IsFetchStep(a)
    ensures var t := Apply(w, s, a);
            && t.requests == s.requests && t.cells == s.cells && t.current == s.current
            && (IsFresh(t, o) ==> IsFresh(s, o) && s.index[o].generation == t.index[o].generation)
  {
    if a.FetchMismatch? { MismatchKeepsCells(w, s, a, o); }
  }

  lemma MismatchKeepsCells(w: World, s: State, a: Action, o: ObjectId)
    requires Enabled(w, s, a) && a.FetchMismatch?
    ensures var t := Apply(w, s, a);
            && t.requests == s.requests && t.cells == s.cells && t.current == s.current
            && (IsFresh(t, o) ==> IsFresh(s, o) && s.index[o].generation == t.index[o].generation)
  {
  }

  lemma FetchesStayTimely(w: World, o: ObjectId, s: State, owners: Owners, a: Action)
    requires Timely(o, s, owners) && Enabled(w, s, a) && IsFetchStep(a)
    ensures Timely(o, Apply(w, s, a), owners)
  {
    FetchStepsKeepCells(w, s, a, o);
    LookersStay(o, s, Apply(w, s, a), owners);
  }

  lemma MoveStaysTimely(o: ObjectId, s: State, owners: Owners, v: Version)
    requires Timely(o, s, owners) && Assumed(o, s, OriginChange(o, v))
    ensures Timely(o, s.(current := s.current[o := v]), owners)
  {
    var t := s.(current := s.current[o := v]);
    assert forall r :: r in t.requests ==> MightProbe(t, t.requests[r]) == MightProbe(s, s.requests[r]);
    assert MightBeProbed(t, o) <==> MightBeProbed(s, o);
  }

  lemma BackgroundStaysTimely(w: World, o: ObjectId, s: State, owners: Owners, a: Action)
    requires Timely(o, s, owners) && Enabled(w, s, a) && StepObject(w, s, a) == o && Assumed(o, s, a)
    requires a.Evict? || a.Touch? || a.OriginChange?
    ensures Timely(o, Apply(w, s, a), owners)
  {
    match a {
      case OriginChange(_, v) => MoveStaysTimely(o, s, owners, v);
      case Evict(k) => LookersStay(o, s, s.(store := s.store - {k}), owners);
      case Touch(_, now) =>
        if o in s.index { LookersStay(o, s, s.(index := s.index[o := Touched(s.index[o], now)]), owners); }
    }
  }

  lemma SameForStaysTimely(o: ObjectId, s: State, t: State, owners: Owners)
    requires Structure(s) && Timely(o, s, owners) && SameFor(s, t, o)
    ensures Timely(o, t, owners)
  {
    forall r | r in t.requests && t.requests[r].oid == o
      ensures r in s.requests && s.requests[r] == t.requests[r]
      ensures MightProbe(s, t.requests[r]) == MightProbe(t, t.requests[r])
    {
      assert OfRequest(o)(t.requests[r]);
      assert GoodCellRef(s.cells, s.requests[r]);
      if t.requests[r].phase.OnCell? { assert OfCell(o)(s.cells[t.requests[r].phase.cell]); }
    }
    LookersLeave(o, s, t, owners);
  }

  lemma OthersStayTimely(w: World, o: ObjectId, s: State, owners: Owners, a: Action)
    requires Structure(s) && Timely(o, s, owners) && Enabled(w, s, a) && StepObject(w, s, a) != o
    ensures NextOwners(o, s, owners, a) == owners && Timely(o, Apply(w, s, a), owners)
  {
    OthersAreUntouched(w, s, a, o);
    SameForStaysTimely(o, s, Apply(w, s, a), owners);
  }

  lemma OwnStepStaysTimely(w: World, o: ObjectId, s: State, owners: Owners, a: Action)
    requires Structure(s) && Timely(o, s, owners) && Enabled(w, s, a) && Assumed(o, s, a)
    requires StepObject(w, s, a) == o && !a.ProbePut?
    ensures Timely(o, Apply(w, s, a), owners)
  {
    if a.TakeCell? || a.StartProbe? || a.ProbeFail? {
      CellsStayTimely(w, o, s, owners, a);
    } else if IsFetchStep(a) {
      FetchesStayTimely(w, o, s, owners, a);
    } else if a.Evict? || a.Touch? || a.OriginChange? {
      BackgroundStaysTimely(w, o, s, owners, a);
    } else {
      LookupsStayTimely(w, o, s, owners, a);
    }
  }

  lemma StepStaysTimely(w: World, o: ObjectId, s: State, owners: Owners, a: Action)
    requires Structure(s) && Timely(o, s, owners) && Enabled(w, s, a) && Assumed(o, s, a)
    ensures Timely(o, Apply(w, s, a), NextOwners(o, s, owners, a))
  {
    if StepObject(w, s, a) != o {
      OthersStayTimely(w, o, s, owners, a);
    } else if a.ProbePut? {
      PutStaysTimely(w, o, s, owners, a);
    } else {
      OwnStepStaysTimely(w, o, s, owners, a);
    }
  }

  /** An origin that moves only when it may makes every put agree. */
  lemma {:induction false} MovesInTimeMakePutsAgree(w: World, o: ObjectId, actions: seq<Action>)
    requires After(w, actions).Some? && KeepsTo(w, FullRule(o), actions)
    ensures KeepsTo(w, IndexRule(o), actions) && AllPutsAgree(w, o, actions)
    ensures Timely(o, After(w, actions).value, OwnersAfter(w, o, actions))
  {
    if actions != [] {
      var before, last := actions[..|actions| - 1], actions[|actions| - 1];
      var s, owners := After(w, before).value, OwnersAfter(w, o, before);
      MovesInTimeMakePutsAgree(w, o, before);
      ReachableStructure(w, before);
      TimelyPutsAgree(w, o, s, owners, last);
      StepStaysTimely(w, o, s, owners, last);
    }
  }

  /**
    Main theorem. In every run that meets the hypotheses for the object it asks for, a
    response has at every moment sent a prefix of the requested range of one version; a
    response that ends without an error has sent all of it; and the origin really served
    that version at some point of the run. The metadata sent with it is that version's.
   */
  lemma NoResponseMixesVersions(w: World, actions: seq<Action>, r: nat)
    requires After(w, actions).Some?
    requires r in After(w, actions).value.requests
    requires After(w, actions).value.requests[r].phase.Serving?
    requires var o := After(w, actions).value.requests[r].oid;
             GoodOrigin(w, o) && KeepsTo(w, FullRule(o), actions)
    ensures var request := After(w, actions).value.requests[r];
            exists v :: WasCurrent(w, actions, request.oid, v) && Sends(w, request.oid, request.phase, v)
  {
    MovesInTimeMakePutsAgree(w, After(w, actions).value.requests[r].oid, actions);
    AgreeingPutsNeverMix(w, actions, r);
  }

  /** Everything that carries generation `g` is of version `v`: stored slices, and the plans being served. */
  ghost predicate GenerationIs(w: World, s: State, o: ObjectId, g: u32, v: Version) {
    && (forall k :: k in s.store && k.oid == o && k.generation == g ==>
          && SliceStart(k.index, w.sliceSize) < |w.content(o, v)| <= MAX_U64
          && s.store[k] == SlicePayload(w.content(o, v), w.sliceSize, k.index))
    && (forall r :: r in s.requests && Plans(s.requests[r], o) && s.requests[r].phase.meta.generation == g ==>
          Describes(w, o, s.requests[r].phase.meta, v))
  }

  /** All slices stored under one (object, generation) and all its plans are of one version. */
  lemma OneVersionPerGeneration(w: World, actions: seq<Action>, o: ObjectId, g: u32)
    requires GoodOrigin(w, o) && After(w, actions).Some? && KeepsTo(w, FullRule(o), actions)
    ensures exists v :: GenerationIs(w, After(w, actions).value, o, g, v)
  {
    var s, owners := After(w, actions).value, OwnersAfter(w, o, actions);
    MovesInTimeMakePutsAgree(w, o, actions);
    AgreeingPutsStayPure(w, o, actions);
    assert GenerationIs(w, s, o, g, if g in owners then owners[g] else 0);
  }
}
