/**
  The orchestrator's shared state as an object, with the operations that change it, run
  without interference: each does what the corresponding steps of the protocol do. Which
  index operations succeed, and how the origin answers, are parameters.
 */
module Orchestrator {
  import opened Core
  import opened Meta
  import opened Range
  import opened Validators
  import opened Protocol

  /** How a probe comes back: a failed fetch, a 206 with its slice, or a 200 whose body is not read. */
  datatype Reply =
    | Refused(reason: string)
    | Partial(total: Option<u64>, validators: Validators, contentType: Option<Str>, body: seq<byte>)
    | Entire(length: Option<u64>, validators: Validators, contentType: Option<Str>)
  {
    /** The object's length, from `Content-Range` or from `Content-Length`. */
    function Declared(): Option<u64> {
      match this
      case Refused(_) => None
      case Partial(total, _, _, _) => total
      case Entire(length, _, _) => length
    }
  }

  /** Which index operations succeed: the lookup, the touch, the probe's own read, and its put. */
  datatype Io = Io(looked: bool, touched: bool, reread: bool, written: bool)

  datatype ProbeError = FetchFailed(reason: string) | NoLength

  /** The reply of an origin that serves a version and honours ranges. */
  function Honest(w: World, oid: ObjectId, version: Version, slice: u32, contentType: Option<Str>): Reply
    requires SliceStart(slice, w.sliceSize) < |w.content(oid, version)| <= MAX_U64
  {
    var content := w.content(oid, version);
    Partial(Some(|content|), w.validators(oid, version), contentType, SlicePayload(content, w.sliceSize, slice))
  }

  /**
    What a probe leaves behind. It fails if and only if the fetch fails or no length is
    declared, and then changes nothing. The slice of a 206 is stored even if the index
    cannot be written; a 200 stores no slice and marks the object as not ranged.
   */
  predicate Probed(s: State, oid: ObjectId, slice: u32, reply: Reply, key: Str, now: u64, io: Io,
                   result: Result<ObjectMeta, ProbeError>,
                   index: map<ObjectId, ObjectMeta>, store: map<SliceKey, seq<byte>>)
  {
    match result
    case Err(error) =>
      && reply.Declared().None?
      && error == (if reply.Refused? then FetchFailed(reply.reason) else NoLength)
      && index == s.index && store == s.store
    case Ok(meta) =>
      && !reply.Refused? && reply.Declared() == Some(meta.totalLen)
      && meta.generation == (if io.reread then StoredGeneration(s, oid) else 0)
      && meta.noRanges == reply.Entire? && !meta.stale
      && meta.key == key && meta.created == now && meta.lastSeen == now
      && Validators(meta.etag, meta.lastModified) == reply.validators && meta.contentType == reply.contentType
      && index == (if io.written then s.index[oid := meta] else s.index)
      && store == (if reply.Partial? then s.store[SliceKey(oid, meta.generation, slice) := reply.body] else s.store)
  }

  /**
    Against an honest origin a probe always succeeds. It learns what the protocol's put
    step records if and only if the generation was read, or there was none to respect,
    and if the entry is also written it leaves exactly what that step leaves.
   */
  lemma HonestProbeIsThePutStep(w: World, s: State, r: nat, contentType: Option<Str>, key: Str, now: u64, io: Io,
                                result: Result<ObjectMeta, ProbeError>,
                                index: map<ObjectId, ObjectMeta>, store: map<SliceKey, seq<byte>>)
    requires Enabled(w, s, ProbePut(r, key, contentType, now))
    requires var request := s.requests[r];
             var slice := ProbeIndex(w.sliceSize, request.spec);
             Probed(s, request.oid, slice, Honest(w, request.oid, request.phase.version, slice, contentType),
                    key, now, io, result, index, store)
    ensures result.Ok?
    ensures var request, t := s.requests[r], PutProbe(w, s, r, key, contentType, now);
            && (result.value == t.index[request.oid] <==> io.reread || StoredGeneration(s, request.oid) == 0)
            && (result.value == t.index[request.oid] && io.written ==>
                  && index == t.index && store == t.store
                  && t.cells == s.cells[request.phase.cell := (request.oid, Ready(result.value))])
  {
  }

  class Orchestrator {
    var index: map<ObjectId, ObjectMeta>
    var store: map<SliceKey, seq<byte>>
    var cellOf: map<ObjectId, nat>
    var cells: map<nat, (ObjectId, Cell)>

    /** The state of the protocol that holds these tables, with nothing going on. */
    function View(): State
      reads this
    {
      State(map[], index, store, cellOf, cells, map[], map[])
    }

    predicate Valid()
      reads this
    {
      forall oid :: oid in cellOf ==> cellOf[oid] in cells && cells[cellOf[oid]].0 == oid
    }

    constructor ()
      ensures Valid() && index == map[] && store == map[] && cellOf == map[] && cells == map[]
    {
      index, store, cellOf, cells := map[], map[], map[], map[];
    }

    /**
      `bump_generation`: the next generation, stale, and the cell forgotten but not changed.
      If the invalidation fails the entry stays as it is, the cell is forgotten all the
      same, and the answer is a guess.
     */
    method BumpGeneration(oid: ObjectId, recorded: bool) returns (generation: u32)
      requires Valid()
      modifies this`index, this`cellOf
      ensures Valid() && cellOf == old(cellOf) - {oid}
      ensures recorded ==>
                && index == Bumped(old(View()), oid).index
                && generation == (if oid in index then index[oid].generation else 1)
                && (oid in index ==> index[oid].stale && generation == WrapSucc(old(index)[oid].generation))
      ensures !recorded ==> index == old(index) && generation == 1
    {
      generation := 1;
      if recorded && oid in index {
        var meta := index[oid];
        meta := meta.(generation := WrapSucc(meta.generation), stale := true);
        index := index[oid := meta];
        generation := meta.generation;
      }
      cellOf := cellOf - {oid};
    }

    /** `cell`: the object's cell, made on first use. */
    method CellFor(oid: ObjectId, newCell: nat) returns (cell: nat)
      requires Valid() && newCell !in cells
      modifies this`cellOf, this`cells
      ensures Valid() && cell in cells && cells[cell].0 == oid
      ensures cellOf == old(cellOf)[oid := cell]
      ensures oid in old(cellOf) ==> cell == old(cellOf[oid]) && cells == old(cells)
      ensures oid !in old(cellOf) ==> cell == newCell && cells == old(cells)[newCell := (oid, Empty)]
    {
      if oid !in cellOf {
        cells := cells[newCell := (oid, Empty)];
        cellOf := cellOf[oid := newCell];
      }
      cell := cellOf[oid];
    }

    /** `probe`, for every way the origin can answer and every index operation that can fail. */
    method Probe(oid: ObjectId, slice: u32, reply: Reply, key: Str, now: u64, io: Io)
      returns (result: Result<ObjectMeta, ProbeError>)
      modifies this`index, this`store
      ensures Probed(old(View()), oid, slice, reply, key, now, io, result, index, store)
    {
      if reply.Refused? {
        return Err(FetchFailed(reply.reason));
      }
      var total := if reply.Partial? then reply.total else reply.length;
      if total.None? {
        return Err(NoLength);
      }
      var generation := if io.reread && oid in index then index[oid].generation else 0;
      var meta := ObjectMeta(key, total.value, generation, reply.validators.etag, reply.validators.lastModified,
                             reply.contentType, reply.Entire?, now, now, false);
      if !meta.noRanges {
        store := store[SliceKey(oid, generation, slice) := reply.body];
      }
      if io.written {
        index := index[oid := meta];
      }
      return Ok(meta);
    }

    /**
      `metadata`: a fresh entry is used and touched, a filled cell is read, and otherwise
      the origin is probed. A failed lookup counts as a missing entry, and a failed probe
      leaves the cell empty for the next caller.
     */
    method Metadata(oid: ObjectId, slice: u32, reply: Reply, key: Str, now: u64, io: Io, newCell: nat)
      returns (result: Result<ObjectMeta, ProbeError>, probedHere: bool, ghost cell: nat)
      requires Valid() && newCell !in cells
      requires oid in cellOf ==> !cells[cellOf[oid]].1.Probing?
      modifies this`index, this`store, this`cellOf, this`cells
      ensures Valid()
      ensures var s := old(View());
              if io.looked && IsFresh(s, oid) then
                && result == Ok(s.index[oid]) && !probedHere
                && index == (if io.touched then s.index[oid := Touched(s.index[oid], now)] else s.index)
                && store == s.store && cellOf == s.cellOf && cells == s.cells
              else
                && cell == (if oid in s.cellOf then s.cellOf[oid] else newCell)
                && cellOf == s.cellOf[oid := cell]
                && cells == s.cells[cell := (oid, if result.Ok? then Ready(result.value) else Empty)]
                && (probedHere <==> !(oid in s.cellOf && s.cells[cell].1.Ready?))
                && if probedHere then Probed(s, oid, slice, reply, key, now, io, result, index, store)
                   else result == Ok(s.cells[cell].1.meta) && index == s.index && store == s.store
    {
      if io.looked && oid in index && !index[oid].stale {
        result, probedHere, cell := Ok(index[oid]), false, 0;
        if io.touched {
          index := index[oid := Touched(index[oid], now)];
        }
        return;
      }
      var found := CellFor(oid, newCell);
      cell, probedHere := found, !cells[found].1.Ready?;
      if !probedHere {
        result := Ok(cells[found].1.meta);
      } else {
        result := Probe(oid, slice, reply, key, now, io);
        if result.Ok? {
          cells := cells[found := (oid, Ready(result.value))];
        }
      }
      assert cells == old(cells)[found := (oid, if result.Ok? then Ready(result.value) else Empty)];
    }
  }
}
