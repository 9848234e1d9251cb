/**
  What fills store as seen by those who wait for them: in every interleaving the effects
  of a fill are those of its cutting loop so far, so a yes for a slice means that the
  store of the run has its right payload, or has lost it.
 */
module FillRuns {
  import opened Core
  import opened Meta
  import opened Range
  import opened Filler
  import opened RunFill

  /** The step is one of the fill's own inserts or publishes. */
  predicate IsEffectOf(y: System, a: Action, f: nat) {
    && a.task in y.tasks
    && (if a.Insert? then y.tasks[a.task].pc.Filling? else a.Publish? && y.tasks[a.task].pc.Inserted?)
    && y.tasks[a.task].pc.fill == f && f < |y.fills|
  }

  /** What that step does to the store or to the watch cell. */
  function EffectOf(y: System, a: Action, f: nat): Effect
    requires IsEffectOf(y, a, f)
  {
    var count := y.tasks[a.task].pc.count;
    if a.Insert? then Stored(KeyIn(y.fills[f], count), a.payload) else Published(WrapSucc(count))
  }

  /** The inserts and publishes of fill `f` along a run, in order. */
  function Effects(actions: seq<Action>, f: nat): seq<Effect> {
    if actions == [] then []
    else
      var before := actions[..|actions| - 1];
      match After(before)
      case None => []
      case Some(y) =>
        var last := actions[|actions| - 1];
        Effects(before, f) + if IsEffectOf(y, last, f) then [EffectOf(y, last, f)] else []
  }

  /** The effects so far, read off the fill's cell and its owner. */
  function Expected(cell: Cell, pc: Pc): seq<Effect> {
    var n := |cell.slices|;
    if pc.Inserted? && 0 < n <= MAX_U32 then
      Script(cell.oid, cell.generation, cell.slices[..n - 1]) + [Stored(KeyIn(cell, n - 1), cell.slices[n - 1])]
    else Script(cell.oid, cell.generation, cell.slices)
  }

  /** Where the owner of a fill is, as far as effects are concerned. */
  function OwnerPc(y: System, f: nat): Pc
    requires f < |y.fills|
  {
    if y.fills[f].owner in y.tasks && Owns(y.tasks[y.fills[f].owner].pc, f) then y.tasks[y.fills[f].owner].pc
    else AtStore
  }

  lemma {:induction false} NoEffectsBefore(actions: seq<Action>, f: nat)
    requires After(actions).Some? && f >= |After(actions).value.fills|
    ensures Effects(actions, f) == []
  {
    if actions != [] {
      var before := actions[..|actions| - 1];
      FillsStay(After(before).value, actions[|actions| - 1]);
      NoEffectsBefore(before, f);
    }
  }

  lemma FillsStay(y: System, a: Action)
    requires Enabled(y, a)
    ensures |y.fills| <= |Next(y, a).fills| <= |y.fills| + 1
  {
  }

  // An insert or a publish of the fill moves what is expected of it by that effect.

  lemma InsertEffect(y: System, a: Action, f: nat)
    requires Inv(y) && Enabled(y, a) && IsEffectOf(y, a, f) && a.Insert?
    ensures f < |Next(y, a).fills|
    ensures Expected(Next(y, a).fills[f], OwnerPc(Next(y, a), f)) ==
            Expected(y.fills[f], OwnerPc(y, f)) + [EffectOf(y, a, f)]
  {
    var cell := y.fills[f];
    assert TaskAgrees(y, a.task, y.tasks[a.task]);
    assert (cell.slices + [a.payload])[..|cell.slices|] == cell.slices;
  }

  lemma PublishEffect(y: System, a: Action, f: nat)
    requires Inv(y) && Enabled(y, a) && IsEffectOf(y, a, f) && a.Publish?
    ensures f < |Next(y, a).fills|
    ensures Expected(Next(y, a).fills[f], OwnerPc(Next(y, a), f)) ==
            Expected(y.fills[f], OwnerPc(y, f)) + [EffectOf(y, a, f)]
  {
    var cell := y.fills[f];
    var n := |cell.slices|;
    assert TaskAgrees(y, a.task, y.tasks[a.task]);
    assert cell.slices[..n - 1] + [cell.slices[n - 1]] == cell.slices;
    ScriptGrows(cell.oid, cell.generation, cell.slices[..n - 1], n - 1, cell.slices[n - 1]);
  }

  /** Any other step leaves what is expected of the fill alone. */
  lemma OtherEffect(y: System, a: Action, f: nat)
    requires Inv(y) && Enabled(y, a) && !IsEffectOf(y, a, f) && f < |y.fills|
    ensures f < |Next(y, a).fills|
    ensures Expected(Next(y, a).fills[f], OwnerPc(Next(y, a), f)) == Expected(y.fills[f], OwnerPc(y, f))
  {
    SlicesStay(y, a, f);
  }

  lemma SlicesStay(y: System, a: Action, f: nat)
    requires Inv(y) && Enabled(y, a) && !IsEffectOf(y, a, f) && f < |y.fills|
    ensures var z := Next(y, a);
            && f < |z.fills| && z.fills[f].slices == y.fills[f].slices
            && z.fills[f].oid == y.fills[f].oid && z.fills[f].generation == y.fills[f].generation
            && (OwnerPc(z, f).Inserted? <==> OwnerPc(y, f).Inserted?)
  {
    var owner := y.fills[f].owner;
    assert FillAgrees(y, f);
    if a.task in y.tasks { assert TaskAgrees(y, a.task, y.tasks[a.task]); }
    if owner != a.task { OthersStep(y, a, owner); }
  }

  /** In every interleaving a fill's effects so far are those of its cutting loop. */
  lemma {:induction false} EffectsAreTheScript(actions: seq<Action>, f: nat)
    requires After(actions).Some? && f < |After(actions).value.fills|
    ensures Effects(actions, f) == Expected(After(actions).value.fills[f], OwnerPc(After(actions).value, f))
  {
    var before, a := actions[..|actions| - 1], actions[|actions| - 1];
    var y := After(before).value;
    ReachableInvariant(before);
    if f < |y.fills| {
      EffectsAreTheScript(before, f);
      if !IsEffectOf(y, a, f) {
        OtherEffect(y, a, f);
      } else if a.Insert? {
        InsertEffect(y, a, f);
      } else {
        PublishEffect(y, a, f);
      }
    } else {
      NoEffectsBefore(before, f);
    }
  }

  // ----------------------------------------------------------- what a yes means

  /** What the cutting loop does on a stream, as `Run` is proved to leave it. */
  function CutEffects(oid: ObjectId, generation: u32, s: SliceSize, stream: seq<Chunk>): seq<Effect> {
    Script(oid, generation, Slices(Delivered(stream), s, CutCount(stream, s)))
  }

  function CutCount(stream: seq<Chunk>, s: SliceSize): nat {
    if Breaks(stream).None? then SliceCount(|Delivered(stream)|, s) else WholeSlices(|Delivered(stream)|, s)
  }

  /** The stream carries the object, or breaks inside it. */
  predicate Carries(stream: seq<Chunk>, content: seq<byte>) {
    Delivered(stream) <= content && (Breaks(stream).None? ==> Delivered(stream) == content)
  }

  /** The loop only cuts slices that the object has, and cuts them where the object does. */
  lemma CutsAreSlices(stream: seq<Chunk>, content: seq<byte>, s: SliceSize, i: nat)
    requires Carries(stream, content) && i < CutCount(stream, s)
    ensures i < SliceCount(|content|, s)
    ensures Slices(Delivered(stream), s, CutCount(stream, s))[i] == SliceOf(content, s, i)
  {
    var body, n := Delivered(stream), CutCount(stream, s);
    SlicesAt(body, s, n, i);
    if Breaks(stream).Some? {
      DivisionBrackets(|body|, s);
      SliceOfLonger(body, content, s, i, n);
      WholeSlicesAreCounted(|body|, |content|, s);
    }
  }

  lemma ExpectedAt(cell: Cell, pc: Pc, i: u32)
    requires i < |cell.slices| <= MAX_U32
    ensures 2 * i < |Expected(cell, pc)|
    ensures Expected(cell, pc)[2 * i] == Stored(KeyIn(cell, i), cell.slices[i])
  {
    var n := |cell.slices|;
    if pc.Inserted? {
      if i < n - 1 { PublishedCountsRiseByOne(cell.oid, cell.generation, cell.slices[..n - 1], i); }
    } else {
      PublishedCountsRiseByOne(cell.oid, cell.generation, cell.slices, i);
    }
  }

  /** Slices whose effects begin a script are the slices of that script. */
  lemma SlicesOfScript(cell: Cell, pc: Pc, i: u32, all: seq<seq<byte>>)
    requires i < |cell.slices| && |all| <= MAX_U32
    requires Expected(cell, pc) <= Script(cell.oid, cell.generation, all)
    ensures |cell.slices| <= |all| && cell.slices[i] == all[i]
  {
    var expected := Expected(cell, pc);
    assert |expected| >= 2 * |cell.slices| - 1;
    ExpectedAt(cell, pc, i);
    PublishedCountsRiseByOne(cell.oid, cell.generation, all, i);
    assert expected[2 * i] == Script(cell.oid, cell.generation, all)[2 * i];
  }

  /** The fill has done a part of what the cutting loop does on some stream of the object. */
  ghost predicate FillsFrom(actions: seq<Action>, f: nat, cell: Cell, content: seq<byte>, s: SliceSize) {
    exists stream ::
      Carries(stream, content) && Effects(actions, f) <= CutEffects(cell.oid, cell.generation, s, stream)
  }

  /** The slices of such a fill are the object's. */
  lemma SlicesAreTheObjects(actions: seq<Action>, f: nat, content: seq<byte>, s: SliceSize, i: u32)
    requires After(actions).Some? && f < |After(actions).value.fills|
    requires |content| <= MAX_U64 && SliceCount(|content|, s) <= MAX_U32
    requires FillsFrom(actions, f, After(actions).value.fills[f], content, s)
    requires i < |After(actions).value.fills[f].slices|
    ensures SliceStart(i, s) < |content|
    ensures After(actions).value.fills[f].slices[i] == SlicePayload(content, s, i)
  {
    var y := After(actions).value;
    var cell := y.fills[f];
    var stream :| Carries(stream, content) && Effects(actions, f) <= CutEffects(cell.oid, cell.generation, s, stream);
    var n := CutCount(stream, s);
    if n > 0 { CutsAreSlices(stream, content, s, n - 1); }
    EffectsAreTheScript(actions, f);
    SlicesOfScript(cell, OwnerPc(y, f), i, Slices(Delivered(stream), s, n));
    CutsAreSlices(stream, content, s, i);
    CountedSlicesStartInside(|content|, s, i);
    SliceOfIsPayload(content, s, i);
  }

  // ------------------------------------------------------- the store of a run

  predicate IsInsert(y: System, a: Action) {
    a.Insert? && a.task in y.tasks && y.tasks[a.task].pc.Filling? && IsEffectOf(y, a, y.tasks[a.task].pc.fill)
  }

  /** What a step puts in the store, whichever fill it belongs to. */
  function StoreStep(store: map<SliceKey, seq<byte>>, y: System, a: Action): map<SliceKey, seq<byte>> {
    if IsInsert(y, a) then
      var effect := EffectOf(y, a, y.tasks[a.task].pc.fill);
      store[effect.key := effect.payload]
    else store
  }

  /** The store after a run of any number of fills, having lost some keys after each step. */
  function StoreAfter(store: map<SliceKey, seq<byte>>, actions: seq<Action>, lost: seq<set<SliceKey>>)
    : map<SliceKey, seq<byte>>
    requires |lost| == |actions|
  {
    if actions == [] then store
    else
      var n := |actions| - 1;
      var before := StoreAfter(store, actions[..n], lost[..n]);
      match After(actions[..n])
      case None => before
      case Some(y) => StoreStep(before, y, actions[n]) - lost[n]
  }

  /** The fill has put the slice of that key in the store. */
  predicate HasPut(cell: Cell, key: SliceKey) {
    cell.oid == key.oid && cell.generation == key.generation && key.index < |cell.slices|
  }

  /** All fills that have put that slice have put the same bytes. */
  predicate PutsAgree(y: System, key: SliceKey, payload: seq<byte>) {
    forall f :: 0 <= f < |y.fills| && HasPut(y.fills[f], key) ==> y.fills[f].slices[key.index] == payload
  }

  predicate SomePut(y: System, key: SliceKey) {
    exists f :: 0 <= f < |y.fills| && HasPut(y.fills[f], key)
  }

  lemma PutsAgreedBefore(y: System, a: Action, key: SliceKey, payload: seq<byte>)
    requires Inv(y) && Enabled(y, a) && PutsAgree(Next(y, a), key, payload)
    ensures PutsAgree(y, key, payload)
  {
    forall f | 0 <= f < |y.fills| && HasPut(y.fills[f], key) ensures y.fills[f].slices[key.index] == payload {
      CellsChange(y, a, f);
      assert HasPut(Next(y, a).fills[f], key);
    }
  }

  /** An insert puts its payload behind those of its fill, and stores it under that place. */
  lemma InsertPuts(y: System, a: Action)
    requires Inv(y) && Enabled(y, a) && a.Insert?
    ensures IsInsert(y, a)
    ensures var f := y.tasks[a.task].pc.fill;
            var key, cell := EffectOf(y, a, f).key, Next(y, a).fills[f];
            HasPut(cell, key) && cell.slices[key.index] == a.payload && |cell.slices| == key.index + 1
    ensures |Next(y, a).fills| == |y.fills|
    ensures forall g :: 0 <= g < |y.fills| && g != y.tasks[a.task].pc.fill ==> Next(y, a).fills[g] == y.fills[g]
  {
    assert TaskAgrees(y, a.task, y.tasks[a.task]);
  }

  /** A slice is first put by an insert under its key. */
  lemma FirstPut(y: System, a: Action, key: SliceKey)
    requires Inv(y) && Enabled(y, a) && !SomePut(y, key) && SomePut(Next(y, a), key)
    ensures IsInsert(y, a) && EffectOf(y, a, y.tasks[a.task].pc.fill).key == key
  {
    var g :| 0 <= g < |Next(y, a).fills| && HasPut(Next(y, a).fills[g], key);
    if a.Insert? {
      InsertPuts(y, a);
      if g == y.tasks[a.task].pc.fill { OldSlices(y, a, g, key); }
    } else if g < |y.fills| {
      SlicesStay(y, a, g);
    } else {
      NewFillIsEmpty(y, a);
    }
  }

  lemma OldSlices(y: System, a: Action, f: nat, key: SliceKey)
    requires Inv(y) && Enabled(y, a) && a.Insert? && f == y.tasks[a.task].pc.fill
    requires f < |Next(y, a).fills| && HasPut(Next(y, a).fills[f], key)
    ensures f < |y.fills| && (HasPut(y.fills[f], key) || KeyIn(y.fills[f], y.tasks[a.task].pc.count) == key)
  {
    assert TaskAgrees(y, a.task, y.tasks[a.task]);
  }

  lemma NewFillIsEmpty(y: System, a: Action)
    requires Enabled(y, a) && |y.fills| < |Next(y, a).fills|
    ensures |Next(y, a).fills| == |y.fills| + 1 && Next(y, a).fills[|y.fills|].slices == []
  {
  }

  /** A step stores nothing but the agreed bytes under the key. */
  lemma StepStoresAgreed(store: map<SliceKey, seq<byte>>, y: System, a: Action, key: SliceKey, payload: seq<byte>)
    requires Inv(y) && Enabled(y, a) && PutsAgree(Next(y, a), key, payload) && SomePut(Next(y, a), key)
    requires SomePut(y, key) && key in store ==> store[key] == payload
    ensures key in StoreStep(store, y, a) ==> StoreStep(store, y, a)[key] == payload
    ensures key in store || !SomePut(y, key) ==> key in StoreStep(store, y, a)
  {
    if a.Insert? { InsertPuts(y, a); }
    if !SomePut(y, key) { FirstPut(y, a, key); }
  }

  /**
    Over a run of any number of fills, a slice that was put is found with the bytes all
    its fills put, unless the store has lost it.
   */
  lemma {:induction false} AgreedSliceIsFound(store: map<SliceKey, seq<byte>>, actions: seq<Action>,
                                              lost: seq<set<SliceKey>>, key: SliceKey, payload: seq<byte>)
    requires |lost| == |actions| && After(actions).Some?
    requires PutsAgree(After(actions).value, key, payload) && SomePut(After(actions).value, key)
    ensures var after := StoreAfter(store, actions, lost);
            && (key in after ==> after[key] == payload)
            && ((forall i :: 0 <= i < |lost| ==> key !in lost[i]) ==> key in after)
  {
    var n := |actions| - 1;
    var before, a := actions[..n], actions[n];
    var y := After(before).value;
    ReachableInvariant(before);
    PutsAgreedBefore(y, a, key, payload);
    if SomePut(y, key) { AgreedSliceIsFound(store, before, lost[..n], key, payload); }
    StepStoresAgreed(StoreAfter(store, before, lost[..n]), y, a, key, payload);
    if forall i :: 0 <= i < |lost| ==> key !in lost[i] {
      assert forall i :: 0 <= i < n ==> lost[..n][i] == lost[i];
    }
  }

  // ----------------------------------------------------------- what a yes means

  predicate AnsweredYes(y: System, t: nat)
    requires t in y.tasks
  {
    y.tasks[t].pc.Done? && y.tasks[t].pc.answer.Good? && y.tasks[t].pc.via.Some?
  }

  lemma YesFrom(actions: seq<Action>, t: nat)
    requires After(actions).Some? && t in After(actions).value.tasks
    requires AnsweredYes(After(actions).value, t)
    ensures var y := After(actions).value;
            var f := y.tasks[t].pc.via.value;
            f < |y.fills| && y.fills[f].oid == y.tasks[t].oid && y.tasks[t].index < |y.fills[f].slices|
  {
    ReachableInvariant(actions);
    assert TaskAgrees(After(actions).value, t, After(actions).value.tasks[t]);
  }

  /** All fills of the object's generation draw on streams of the same bytes. */
  ghost predicate AllFillFrom(actions: seq<Action>, oid: ObjectId, generation: u32, content: seq<byte>, s: SliceSize)
    requires After(actions).Some?
  {
    var y := After(actions).value;
    forall f :: 0 <= f < |y.fills| && y.fills[f].oid == oid && y.fills[f].generation == generation ==>
                  FillsFrom(actions, f, y.fills[f], content, s)
  }

  lemma FillsOfOneObjectAgree(actions: seq<Action>, oid: ObjectId, generation: u32, content: seq<byte>, s: SliceSize,
                              i: u32)
    requires After(actions).Some? && AllFillFrom(actions, oid, generation, content, s)
    requires |content| <= MAX_U64 && SliceCount(|content|, s) <= MAX_U32
    requires SliceStart(i, s) < |content|
    ensures PutsAgree(After(actions).value, SliceKey(oid, generation, i), SlicePayload(content, s, i))
  {
    var y, key := After(actions).value, SliceKey(oid, generation, i);
    forall f | 0 <= f < |y.fills| && HasPut(y.fills[f], key)
      ensures y.fills[f].slices[i] == SlicePayload(content, s, i)
    {
      SlicesAreTheObjects(actions, f, content, s, i);
    }
  }

  /**
    A yes means the payload is there. Take any run of any number of fills, over any store
    that may lose what it likes. If the fills of an object's generation each do a part of
    what the cutting loop does on a stream of the object, however chunked and wherever it
    breaks, then whoever one of them tells yes for a slice finds under its key exactly the
    slice's bytes of the object, or nothing, and the latter only if the store lost it.
   */
  lemma GoodMeansPayloadStored(actions: seq<Action>, t: nat, content: seq<byte>, s: SliceSize,
                               store: map<SliceKey, seq<byte>>, lost: seq<set<SliceKey>>)
    requires After(actions).Some? && t in After(actions).value.tasks && |lost| == |actions|
    requires AnsweredYes(After(actions).value, t)
    requires |content| <= MAX_U64 && SliceCount(|content|, s) <= MAX_U32
    requires var y := After(actions).value;
             var f := y.tasks[t].pc.via.value;
             f < |y.fills| ==> AllFillFrom(actions, y.fills[f].oid, y.fills[f].generation, content, s)
    ensures var y := After(actions).value;
            var task := y.tasks[t];
            var f := task.pc.via.value;
            && f < |y.fills| && y.fills[f].oid == task.oid && SliceStart(task.index, s) < |content|
            && var key, after := KeyIn(y.fills[f], task.index), StoreAfter(store, actions, lost);
               && (key in after ==> after[key] == SlicePayload(content, s, task.index))
               && ((forall i :: 0 <= i < |lost| ==> key !in lost[i]) ==> key in after)
  {
    var y := After(actions).value;
    var task := y.tasks[t];
    var f := task.pc.via.value;
    YesFrom(actions, t);
    var key := KeyIn(y.fills[f], task.index);
    SlicesAreTheObjects(actions, f, content, s, task.index);
    FillsOfOneObjectAgree(actions, y.fills[f].oid, y.fills[f].generation, content, s, task.index);
    assert HasPut(y.fills[f], key);
    AgreedSliceIsFound(store, actions, lost, key, SlicePayload(content, s, task.index));
  }
}
