/**
  What the index records about an object, and the two ways an entry is rewritten in
  place. Text is held as the bytes of the source's `String`.
 */
module Meta {
  import opened Core

  type Str = seq<byte>

  type ObjectId = id: seq<byte> | |id| == 16 witness seq(16, i => 0)

  /** How stale `lastSeen` may get before it is written again, in seconds. */
  const LAST_SEEN_GRANULARITY: nat := 3600

  datatype ObjectMeta = ObjectMeta(
    key: Str,
    totalLen: u64,
    generation: u32,
    etag: Option<Str>,
    lastModified: Option<Str>,
    contentType: Option<Str>,
    noRanges: bool,
    created: u64,
    lastSeen: u64,
    stale: bool)

  datatype SliceKey = SliceKey(oid: ObjectId, generation: u32, index: u32)

  /** `touch`: rewrite the last-seen time, unless it is recent enough. */
  function Touched(meta: ObjectMeta, now: u64): ObjectMeta {
    if SatSub(now, meta.lastSeen) < LAST_SEEN_GRANULARITY then meta else meta.(lastSeen := now)
  }

  /** `invalidate`: the next generation, wrapping in `u32`, marked stale. */
  function Invalidated(meta: ObjectMeta): ObjectMeta {
    meta.(generation := WrapSucc(meta.generation), stale := true)
  }
}
