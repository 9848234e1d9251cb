/**
  How an index entry is written to the table and read back. `encode` writes a string's
  length truncated to 32 bits, and the largest 32-bit length stands for an absent string;
  the round trip holds exactly when no string is that long.
 */
module IndexCodec {
  import opened Core
  import opened Meta
  import opened Bytes

  /** Why an entry does not decode. */
  datatype Corrupt =
    | TruncatedTotalLen | TruncatedGeneration | TruncatedNoRanges | TruncatedStale | TruncatedCreated
    | TruncatedLastSeen | TruncatedKey | MissingKey | TruncatedEtag | TruncatedLastModified | TruncatedContentType

  // ---------------------------------------------------------------- encoding

  function Flag(b: bool): byte { if b then 1 else 0 }

  /** `put_str`: the length as `u32`, then the bytes; `u32::MAX` alone for an absent value. */
  function PutStr(value: Option<Str>): seq<byte> {
    match value
    case None => Le(MAX_U32, 4)
    case Some(v) => Le(|v| % (MAX_U32 + 1), 4) + v
  }

  /** The strings of an entry, in the order they are written, followed by `rest`. */
  function Strings(meta: ObjectMeta, rest: seq<byte>): seq<byte> {
    PutStr(Some(meta.key)) + (PutStr(meta.etag) + (PutStr(meta.lastModified) + (PutStr(meta.contentType) + rest)))
  }

  /** The bytes of an entry, followed by `rest`. */
  function Entry(meta: ObjectMeta, rest: seq<byte>): seq<byte> {
    Le(meta.totalLen, 8) + (Le(meta.generation, 4) + ([Flag(meta.noRanges)] + ([Flag(meta.stale)] +
      (Le(meta.created, 8) + (Le(meta.lastSeen, 8) + Strings(meta, rest))))))
  }

  function Encoded(meta: ObjectMeta): seq<byte> {
    Entry(meta, [])
  }

  /** `encode`, appending field after field to one buffer. */
  method Encode(meta: ObjectMeta) returns (out: seq<byte>)
    ensures out == Encoded(meta)
  {
    ghost var tail := Strings(meta, []);
    ghost var times := Le(meta.created, 8) + (Le(meta.lastSeen, 8) + tail);
    out := Le(meta.totalLen, 8);
    out := Append(out, Le(meta.generation, 4), [Flag(meta.noRanges)] + ([Flag(meta.stale)] + times));
    out := Append(out, [Flag(meta.noRanges)], [Flag(meta.stale)] + times);
    out := Append(out, [Flag(meta.stale)], times);
    out := Append(out, Le(meta.created, 8), Le(meta.lastSeen, 8) + tail);
    out := Append(out, Le(meta.lastSeen, 8), tail);
    out := Append(out, PutStr(Some(meta.key)),
                  PutStr(meta.etag) + (PutStr(meta.lastModified) + (PutStr(meta.contentType) + [])));
    out := Append(out, PutStr(meta.etag), PutStr(meta.lastModified) + (PutStr(meta.contentType) + []));
    out := Append(out, PutStr(meta.lastModified), PutStr(meta.contentType) + []);
    out := Append(out, PutStr(meta.contentType), []);
  }

  /** `extend_from_slice`; `later` is what the buffer will get afterwards. */
  method Append(out: seq<byte>, field: seq<byte>, ghost later: seq<byte>) returns (longer: seq<byte>)
    ensures longer == out + field
    ensures longer + later == out + (field + later)
  {
    longer := out + field;
    Assoc(out, field, later);
  }

  // ---------------------------------------------------------------- decoding

  /** `Cursor::string`: bytes that are not UTF-8 read as absent. */
  function TakeStr(b: seq<byte>, e: Corrupt): Parsed<Option<Str>, Corrupt> {
    var (len, b1) :- TakeU32(b, e);
    if len == MAX_U32 then Got(None, b1)
    else
      var (bytes, b2) :- Take(b1, len, e);
      Got(if Utf8(bytes) then Some(bytes) else None, b2)
  }

  function ParseOptions(b: seq<byte>): Parsed<(Option<Str>, Option<Str>, Option<Str>), Corrupt> {
    var (etag, b1) :- TakeStr(b, TruncatedEtag);
    var (lastModified, b2) :- TakeStr(b1, TruncatedLastModified);
    var (contentType, b3) :- TakeStr(b2, TruncatedContentType);
    Got((etag, lastModified, contentType), b3)
  }

  function ParseStrings(b: seq<byte>): Parsed<(Str, Option<Str>, Option<Str>, Option<Str>), Corrupt> {
    var (key, b1) :- TakeStr(b, TruncatedKey);
    if key.None? then Cut(MissingKey)
    else
      var (options, b2) :- ParseOptions(b1);
      Got((key.value, options.0, options.1, options.2), b2)
  }

  /** The fixed-width fields: length and generation, then flags, then times. */
  function ParseCounts(b: seq<byte>): Parsed<(u64, u32), Corrupt> {
    var (totalLen, b1) :- TakeU64(b, TruncatedTotalLen);
    var (generation, b2) :- TakeU32(b1, TruncatedGeneration);
    Got((totalLen, generation), b2)
  }

  function ParseFlags(b: seq<byte>): Parsed<(bool, bool), Corrupt> {
    var (noRanges, b1) :- TakeU8(b, TruncatedNoRanges);
    var (stale, b2) :- TakeU8(b1, TruncatedStale);
    Got((noRanges != 0, stale != 0), b2)
  }

  function ParseTimes(b: seq<byte>): Parsed<(u64, u64), Corrupt> {
    var (created, b1) :- TakeU64(b, TruncatedCreated);
    var (lastSeen, b2) :- TakeU64(b1, TruncatedLastSeen);
    Got((created, lastSeen), b2)
  }

  function ParseFixed(b: seq<byte>): Parsed<((u64, u32), (bool, bool), (u64, u64)), Corrupt> {
    var (counts, b1) :- ParseCounts(b);
    var (flags, b2) :- ParseFlags(b1);
    var (times, b3) :- ParseTimes(b2);
    Got((counts, flags, times), b3)
  }

  function ParseEntry(b: seq<byte>): Parsed<ObjectMeta, Corrupt> {
    var (fixed, b1) :- ParseFixed(b);
    var (strings, b2) :- ParseStrings(b1);
    Got(Assemble(fixed, strings), b2)
  }

  function Assemble(fixed: ((u64, u32), (bool, bool), (u64, u64)),
                    strings: (Str, Option<Str>, Option<Str>, Option<Str>)): ObjectMeta
  {
    var (counts, flags, times) := fixed;
    ObjectMeta(strings.0, counts.0, counts.1, strings.1, strings.2, strings.3, flags.0, times.0, times.1, flags.1)
  }

  /** `ObjectMeta::decode`: what follows the entry is not looked at. */
  function Decoded(b: seq<byte>): Result<ObjectMeta, Corrupt> {
    match ParseEntry(b)
    case Got(meta, _) => Ok(meta)
    case Cut(reason) => Err(reason)
  }

  method ReadString(cursor: Cursor, e: Corrupt) returns (r: Result<Option<Str>, Corrupt>)
    requires cursor.Valid()
    modifies cursor
    ensures cursor.Valid()
    ensures match TakeStr(old(cursor.Rest()), e)
            case Got(x, rest) => r == Ok(x) && cursor.Rest() == rest
            case Cut(_) => r == Err(e)
  {
    var len := cursor.U32(e);
    if len.Err? {
      return Err(e);
    }
    if len.value == MAX_U32 {
      return Ok(None);
    }
    var bytes := cursor.TakeBytes(len.value, e);
    if bytes.Err? {
      return Err(e);
    }
    return Ok(if Utf8(bytes.value) then Some(bytes.value) else None);
  }

  method ReadOptions(cursor: Cursor) returns (r: Result<(Option<Str>, Option<Str>, Option<Str>), Corrupt>)
    requires cursor.Valid()
    modifies cursor
    ensures cursor.Valid()
    ensures match ParseOptions(old(cursor.Rest()))
            case Got(options, rest) => r == Ok(options) && cursor.Rest() == rest
            case Cut(reason) => r == Err(reason)
  {
    var etag := ReadString(cursor, TruncatedEtag);
    if etag.Err? { return Err(etag.error); }
    var lastModified := ReadString(cursor, TruncatedLastModified);
    if lastModified.Err? { return Err(lastModified.error); }
    var contentType := ReadString(cursor, TruncatedContentType);
    if contentType.Err? { return Err(contentType.error); }
    return Ok((etag.value, lastModified.value, contentType.value));
  }

  method ReadStrings(cursor: Cursor) returns (r: Result<(Str, Option<Str>, Option<Str>, Option<Str>), Corrupt>)
    requires cursor.Valid()
    modifies cursor
    ensures cursor.Valid()
    ensures match ParseStrings(old(cursor.Rest()))
            case Got(strings, rest) => r == Ok(strings) && cursor.Rest() == rest
            case Cut(reason) => r == Err(reason)
  {
    var key := ReadString(cursor, TruncatedKey);
    if key.Err? { return Err(key.error); }
    if key.value.None? { return Err(MissingKey); }
    var options := ReadOptions(cursor);
    if options.Err? { return Err(options.error); }
    return Ok((key.value.value, options.value.0, options.value.1, options.value.2));
  }

  method ReadCounts(cursor: Cursor) returns (r: Result<(u64, u32), Corrupt>)
    requires cursor.Valid()
    modifies cursor
    ensures cursor.Valid()
    ensures match ParseCounts(old(cursor.Rest()))
            case Got(counts, rest) => r == Ok(counts) && cursor.Rest() == rest
            case Cut(reason) => r == Err(reason)
  {
    var totalLen := cursor.U64(TruncatedTotalLen);
    if totalLen.Err? { return Err(totalLen.error); }
    var generation := cursor.U32(TruncatedGeneration);
    if generation.Err? { return Err(generation.error); }
    return Ok((totalLen.value, generation.value));
  }

  method ReadFlags(cursor: Cursor) returns (r: Result<(bool, bool), Corrupt>)
    requires cursor.Valid()
    modifies cursor
    ensures cursor.Valid()
    ensures match ParseFlags(old(cursor.Rest()))
            case Got(flags, rest) => r == Ok(flags) && cursor.Rest() == rest
            case Cut(reason) => r == Err(reason)
  {
    var noRanges := cursor.U8(TruncatedNoRanges);
    if noRanges.Err? { return Err(noRanges.error); }
    var stale := cursor.U8(TruncatedStale);
    if stale.Err? { return Err(stale.error); }
    return Ok((noRanges.value != 0, stale.value != 0));
  }

  method ReadTimes(cursor: Cursor) returns (r: Result<(u64, u64), Corrupt>)
    requires cursor.Valid()
    modifies cursor
    ensures cursor.Valid()
    ensures match ParseTimes(old(cursor.Rest()))
            case Got(times, rest) => r == Ok(times) && cursor.Rest() == rest
            case Cut(reason) => r == Err(reason)
  {
    var created := cursor.U64(TruncatedCreated);
    if created.Err? { return Err(created.error); }
    var lastSeen := cursor.U64(TruncatedLastSeen);
    if lastSeen.Err? { return Err(lastSeen.error); }
    return Ok((created.value, lastSeen.value));
  }

  method ReadFixed(cursor: Cursor) returns (r: Result<((u64, u32), (bool, bool), (u64, u64)), Corrupt>)
    requires cursor.Valid()
    modifies cursor
    ensures cursor.Valid()
    ensures match ParseFixed(old(cursor.Rest()))
            case Got(fixed, rest) => r == Ok(fixed) && cursor.Rest() == rest
            case Cut(reason) => r == Err(reason)
  {
    var counts := ReadCounts(cursor);
    if counts.Err? { return Err(counts.error); }
    var flags := ReadFlags(cursor);
    if flags.Err? { return Err(flags.error); }
    var times := ReadTimes(cursor);
    if times.Err? { return Err(times.error); }
    return Ok((counts.value, flags.value, times.value));
  }

  /** `decode`, driving a cursor from field to field. */
  method Decode(bytes: seq<byte>) returns (r: Result<ObjectMeta, Corrupt>)
    ensures r == Decoded(bytes)
  {
    var cursor := new Cursor(bytes);
    var fixed := ReadFixed(cursor);
    if fixed.Err? { return Err(fixed.error); }
    var strings := ReadStrings(cursor);
    if strings.Err? { return Err(strings.error); }
    return Ok(Assemble(fixed.value, strings.value));
  }

  // ----------------------------------------------------------- the round trip

  /** The bytes are text, as in every `String`. */
  predicate IsText(value: Option<Str>) { value.Some? ==> Utf8(value.value) }

  predicate WellTyped(meta: ObjectMeta) {
    Utf8(meta.key) && IsText(meta.etag) && IsText(meta.lastModified) && IsText(meta.contentType)
  }

  /** Short enough to be told from an absent string and not to be truncated. */
  predicate Fits(value: Option<Str>) { value.Some? ==> |value.value| < MAX_U32 }

  predicate AllFit(meta: ObjectMeta) {
    Fits(Some(meta.key)) && Fits(meta.etag) && Fits(meta.lastModified) && Fits(meta.contentType)
  }

  lemma TakeStrGets(value: Option<Str>, rest: seq<byte>, e: Corrupt)
    requires IsText(value) && Fits(value)
    ensures TakeStr(PutStr(value) + rest, e) == Got(value, rest)
  {
    match value {
      case None => TakeU32Gets(MAX_U32, rest, e);
      case Some(v) =>
        assert PutStr(value) == Le(|v|, 4) + v;
        Assoc(Le(|v|, 4), v, rest);
        TakeU32Gets(|v|, v + rest, e);
        TakeGets(v, rest, e);
    }
  }

  /** A string too long for its prefix never reads back as itself. */
  lemma TakeStrMisses(v: Str, rest: seq<byte>, e: Corrupt)
    requires |v| >= MAX_U32
    ensures TakeStr(PutStr(Some(v)) + rest, e) != Got(Some(v), rest)
    ensures TakeStr(PutStr(Some(v)) + rest, e).Got? ==> TakeStr(PutStr(Some(v)) + rest, e).value != Some(v)
  {
    var len := |v| % (MAX_U32 + 1);
    Assoc(Le(len, 4), v, rest);
    TakeU32Gets(len, v + rest, e);
    Shrinks(|v|);
  }

  lemma Shrinks(n: nat)
    requires n >= MAX_U32
    ensures n % (MAX_U32 + 1) == MAX_U32 || n % (MAX_U32 + 1) < n
  {
  }

  lemma StringsRoundTrip(meta: ObjectMeta, rest: seq<byte>)
    requires WellTyped(meta) && AllFit(meta)
    ensures ParseStrings(Strings(meta, rest)) == Got((meta.key, meta.etag, meta.lastModified, meta.contentType), rest)
  {
    var r4 := PutStr(meta.contentType) + rest;
    var r3 := PutStr(meta.lastModified) + r4;
    var r2 := PutStr(meta.etag) + r3;
    TakeStrGets(Some(meta.key), r2, TruncatedKey);
    TakeStrGets(meta.etag, r3, TruncatedEtag);
    TakeStrGets(meta.lastModified, r4, TruncatedLastModified);
    TakeStrGets(meta.contentType, rest, TruncatedContentType);
  }

  /** If some string does not fit, the strings that come back are not the ones that went in. */
  lemma StringsMiss(meta: ObjectMeta, rest: seq<byte>)
    requires WellTyped(meta) && !AllFit(meta)
    ensures var parsed := ParseStrings(Strings(meta, rest));
            parsed.Got? ==> parsed.value != (meta.key, meta.etag, meta.lastModified, meta.contentType)
  {
    var r4 := PutStr(meta.contentType) + rest;
    var r3 := PutStr(meta.lastModified) + r4;
    var r2 := PutStr(meta.etag) + r3;
    if !Fits(Some(meta.key)) {
      TakeStrMisses(meta.key, r2, TruncatedKey);
    } else {
      TakeStrGets(Some(meta.key), r2, TruncatedKey);
      if !Fits(meta.etag) {
        TakeStrMisses(meta.etag.value, r3, TruncatedEtag);
      } else {
        TakeStrGets(meta.etag, r3, TruncatedEtag);
        if !Fits(meta.lastModified) {
          TakeStrMisses(meta.lastModified.value, r4, TruncatedLastModified);
        } else {
          TakeStrGets(meta.lastModified, r4, TruncatedLastModified);
          TakeStrMisses(meta.contentType.value, rest, TruncatedContentType);
        }
      }
    }
  }

  /** Reading an entry comes down to reading its strings: the fixed-width part always survives. */
  lemma FixedPartRoundTrips(meta: ObjectMeta, rest: seq<byte>)
    ensures ParseEntry(Entry(meta, rest)) ==
            match ParseStrings(Strings(meta, rest))
            case Got(s, left) => Got(meta.(key := s.0, etag := s.1, lastModified := s.2, contentType := s.3), left)
            case Cut(reason) => Cut(reason)
  {
    var r6 := Strings(meta, rest);
    var r5 := Le(meta.lastSeen, 8) + r6;
    var r4 := Le(meta.created, 8) + r5;
    var r3 := [Flag(meta.stale)] + r4;
    var r2 := [Flag(meta.noRanges)] + r3;
    var r1 := Le(meta.generation, 4) + r2;
    TakeU64Gets(meta.totalLen, r1, TruncatedTotalLen);
    TakeU32Gets(meta.generation, r2, TruncatedGeneration);
    assert ParseCounts(Entry(meta, rest)) == Got((meta.totalLen, meta.generation), r2);
    TakeU8Gets(Flag(meta.noRanges), r3, TruncatedNoRanges);
    TakeU8Gets(Flag(meta.stale), r4, TruncatedStale);
    assert ParseFlags(r2) == Got((meta.noRanges, meta.stale), r4);
    TakeU64Gets(meta.created, r5, TruncatedCreated);
    TakeU64Gets(meta.lastSeen, r6, TruncatedLastSeen);
    assert ParseTimes(r4) == Got((meta.created, meta.lastSeen), r6);
  }

  /** An entry reads back as it was written if and only if every string is shorter than `u32::MAX`. */
  lemma RoundTripsIffAllFit(meta: ObjectMeta)
    requires WellTyped(meta)
    ensures Decoded(Encoded(meta)) == Ok(meta) <==> AllFit(meta)
  {
    FixedPartRoundTrips(meta, []);
    if AllFit(meta) {
      StringsRoundTrip(meta, []);
    } else {
      StringsMiss(meta, []);
    }
  }

  // -------------------------------------------------------------- truncation

  lemma TakeStrExtends(b: seq<byte>, e: Corrupt, more: seq<byte>)
    requires TakeStr(b, e).Got?
    ensures TakeStr(b + more, e) == Got(TakeStr(b, e).value, TakeStr(b, e).rest + more)
  {
    TakeExtends(b, 4, e, more);
    var len := TakeU32(b, e).value;
    if len != MAX_U32 {
      TakeExtends(TakeU32(b, e).rest, len, e, more);
    }
  }

  lemma StringsExtend(b: seq<byte>, more: seq<byte>)
    requires ParseStrings(b).Got?
    ensures ParseStrings(b + more) == Got(ParseStrings(b).value, ParseStrings(b).rest + more)
  {
    var b1 := TakeStr(b, TruncatedKey).rest;
    var b2 := TakeStr(b1, TruncatedEtag).rest;
    var b3 := TakeStr(b2, TruncatedLastModified).rest;
    TakeStrExtends(b, TruncatedKey, more);
    TakeStrExtends(b1, TruncatedEtag, more);
    TakeStrExtends(b2, TruncatedLastModified, more);
    TakeStrExtends(b3, TruncatedContentType, more);
  }

  lemma EntryExtends(b: seq<byte>, more: seq<byte>)
    requires ParseEntry(b).Got?
    ensures ParseEntry(b + more) == Got(ParseEntry(b).value, ParseEntry(b).rest + more)
  {
    var b1 := ParseCounts(b).rest;
    var b2 := ParseFlags(b1).rest;
    var b3 := ParseTimes(b2).rest;
    FixedExtend(b, b1, b2, more);
    StringsExtend(b3, more);
  }

  lemma FixedExtend(b: seq<byte>, b1: seq<byte>, b2: seq<byte>, more: seq<byte>)
    ensures ParseCounts(b).Got? ==> ParseCounts(b + more) == Got(ParseCounts(b).value, ParseCounts(b).rest + more)
    ensures ParseFlags(b1).Got? ==> ParseFlags(b1 + more) == Got(ParseFlags(b1).value, ParseFlags(b1).rest + more)
    ensures ParseTimes(b2).Got? ==> ParseTimes(b2 + more) == Got(ParseTimes(b2).value, ParseTimes(b2).rest + more)
  {
    if ParseCounts(b).Got? {
      TakeExtends(b, 8, TruncatedTotalLen, more);
      TakeExtends(b[8..], 4, TruncatedGeneration, more);
    }
    if ParseFlags(b1).Got? {
      TakeExtends(b1, 1, TruncatedNoRanges, more);
      TakeExtends(b1[1..], 1, TruncatedStale, more);
    }
    if ParseTimes(b2).Got? {
      TakeExtends(b2, 8, TruncatedCreated, more);
      TakeExtends(b2[8..], 8, TruncatedLastSeen, more);
    }
  }

  /** Cut short anywhere, an entry does not decode. */
  lemma NoStrictPrefixDecodes(meta: ObjectMeta, n: nat)
    requires WellTyped(meta) && AllFit(meta) && n < |Encoded(meta)|
    ensures Decoded(Encoded(meta)[..n]).Err?
  {
    var b, more := Encoded(meta)[..n], Encoded(meta)[n..];
    assert b + more == Encoded(meta);
    FixedPartRoundTrips(meta, []);
    StringsRoundTrip(meta, []);
    if ParseEntry(b).Got? {
      EntryExtends(b, more);
      assert false;
    }
  }

  lemma TakenStringsFit(b: seq<byte>, e: Corrupt)
    requires TakeStr(b, e).Got?
    ensures IsText(TakeStr(b, e).value) && Fits(TakeStr(b, e).value)
  {
  }

  lemma ParsedStringsFit(b: seq<byte>)
    requires ParseStrings(b).Got?
    ensures var s := ParseStrings(b).value;
            && IsText(Some(s.0)) && IsText(s.1) && IsText(s.2) && IsText(s.3)
            && Fits(Some(s.0)) && Fits(s.1) && Fits(s.2) && Fits(s.3)
  {
    var b1 := TakeStr(b, TruncatedKey).rest;
    var b2 := TakeStr(b1, TruncatedEtag).rest;
    var b3 := TakeStr(b2, TruncatedLastModified).rest;
    TakenStringsFit(b, TruncatedKey);
    TakenStringsFit(b1, TruncatedEtag);
    TakenStringsFit(b2, TruncatedLastModified);
    TakenStringsFit(b3, TruncatedContentType);
  }

  /** Whatever decodes can be written back: its strings are text and fit. */
  lemma DecodedIsStorable(b: seq<byte>)
    requires Decoded(b).Ok?
    ensures WellTyped(Decoded(b).value) && AllFit(Decoded(b).value)
  {
    ParsedStringsFit(ParseTimes(ParseFlags(ParseCounts(b).rest).rest).rest);
  }
}
