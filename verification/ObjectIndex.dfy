/**
  The object index: a table from object ids to encoded entries, and the operations that
  read an entry, change it and write it back.
 */
module ObjectIndex {
  import opened Core
  import opened Meta
  import opened IndexCodec

  type Table = map<ObjectId, seq<byte>>

  /** What the table says about an object. */
  function Lookup(table: Table, id: ObjectId): Result<Option<ObjectMeta>, Corrupt> {
    if id !in table then Ok(None)
    else
      match Decoded(table[id])
      case Ok(meta) => Ok(Some(meta))
      case Err(reason) => Err(reason)
  }

  ghost predicate SameBut(before: Table, after: Table, id: ObjectId) {
    forall other :: other != id ==> Lookup(after, other) == Lookup(before, other)
  }

  lemma WriteThenRead(table: Table, id: ObjectId, meta: ObjectMeta)
    requires WellTyped(meta)
    ensures SameBut(table, table[id := Encoded(meta)], id)
    ensures Lookup(table[id := Encoded(meta)], id) == Ok(Some(meta)) <==> AllFit(meta)
  {
    RoundTripsIffAllFit(meta);
  }

  class Index {
    var table: Table

    constructor ()
      ensures table == map[]
    {
      table := map[];
    }

    method Get(id: ObjectId) returns (r: Result<Option<ObjectMeta>, Corrupt>)
      ensures r == Lookup(table, id)
    {
      if id !in table {
        return Ok(None);
      }
      var meta := Decode(table[id]);
      r := if meta.Ok? then Ok(Some(meta.value)) else Err(meta.error);
    }

    /** What is put is what is got, if and only if every string is short enough to be stored. */
    method Put(id: ObjectId, meta: ObjectMeta)
      requires WellTyped(meta)
      modifies this
      ensures table == old(table)[id := Encoded(meta)]
      ensures SameBut(old(table), table, id)
      ensures Lookup(table, id) == Ok(Some(meta)) <==> AllFit(meta)
    {
      var bytes := Encode(meta);
      WriteThenRead(table, id, meta);
      table := table[id := bytes];
    }

    method Remove(id: ObjectId)
      modifies this
      ensures Lookup(table, id) == Ok(None) && SameBut(old(table), table, id)
    {
      table := table - {id};
    }

    /** Rewrites the last-seen time of a known entry unless it is recent, and says whether it wrote. */
    method Touch(id: ObjectId, now: u64) returns (r: Result<bool, Corrupt>)
      modifies this
      ensures SameBut(old(table), table, id)
      ensures match Lookup(old(table), id)
              case Err(reason) => r == Err(reason) && table == old(table)
              case Ok(None) => r == Ok(false) && table == old(table)
              case Ok(Some(meta)) =>
                && Lookup(table, id) == Ok(Some(Touched(meta, now)))
                && r == Ok(Touched(meta, now) != meta)
    {
      var found := Get(id);
      if found.Err? { return Err(found.error); }
      if found.value.None? { return Ok(false); }
      var meta := found.value.value;
      if SatSub(now, meta.lastSeen) < LAST_SEEN_GRANULARITY {
        return Ok(false);
      }
      DecodedIsStorable(table[id]);
      Put(id, meta.(lastSeen := now));
      return Ok(true);
    }

    /** Marks a known entry stale under its next generation; an unknown one is left unknown. */
    method Invalidate(id: ObjectId) returns (r: Result<u32, Corrupt>)
      modifies this
      ensures SameBut(old(table), table, id)
      ensures match Lookup(old(table), id)
              case Err(reason) => r == Err(reason) && table == old(table)
              case Ok(None) => r == Ok(1) && table == old(table)
              case Ok(Some(meta)) =>
                && Lookup(table, id) == Ok(Some(Invalidated(meta)))
                && r == Ok(Invalidated(meta).generation)
    {
      var found := Get(id);
      if found.Err? { return Err(found.error); }
      if found.value.None? { return Ok(1); }
      var meta := found.value.value;
      var generation := WrapSucc(meta.generation);
      DecodedIsStorable(table[id]);
      Put(id, meta.(generation := generation, stale := true));
      return Ok(generation);
    }
  }
}
