/**
  The on-disk form of a slice: a magic number, a header that describes the object, a
  checksum and the payload. The checksum is an arbitrary function of the payload.

  The format is canonical. Every byte string that decodes is the encoding of what it
  decodes to, so in particular a payload that is served hashes to its stored checksum.
 */
module SliceCodec {
  import opened Core
  import opened Meta
  import opened Bytes

  const MAGIC: u32 := 0x4341_4331

  datatype SliceHeader = SliceHeader(
    sliceSize: u32,
    totalLen: u64,
    generation: u32,
    etag: Option<Str>,
    lastModified: Option<Str>,
    contentType: Option<Str>)

  datatype SliceValue = SliceValue(header: SliceHeader, payload: seq<byte>)

  datatype EncodeError = StringTooLong | PayloadTooLarge

  datatype DecodeError = Truncated | MagicMismatch | NotUtf8 | ChecksumMismatch

  type Hash = seq<byte> -> u64

  // --------------------------------------------------------------- slice keys

  function KeyBytes(key: SliceKey, rest: seq<byte>): seq<byte> {
    key.oid + (Le(key.generation, 4) + (Le(key.index, 4) + rest))
  }

  function ParseKey(b: seq<byte>): Parsed<SliceKey, DecodeError> {
    var (oid, b1) :- Take(b, 16, Truncated);
    var (generation, b2) :- TakeU32(b1, Truncated);
    var (index, b3) :- TakeU32(b2, Truncated);
    Got(SliceKey(oid, generation, index), b3)
  }

  /** A key is 24 bytes, reads back as itself, and nothing else reads as it. */
  lemma KeyRoundTrip(key: SliceKey, b: seq<byte>, rest: seq<byte>)
    ensures |KeyBytes(key, [])| == 24
    ensures ParseKey(b) == Got(key, rest) <==> b == KeyBytes(key, rest)
  {
    var r1 := Le(key.index, 4) + rest;
    var r2 := Le(key.generation, 4) + r1;
    TakeGets(key.oid, r2, Truncated);
    TakeU32Gets(key.generation, r1, Truncated);
    TakeU32Gets(key.index, rest, Truncated);
    if ParseKey(b) == Got(key, rest) {
      TakeIsExact(b, 16, Truncated);
      TakeU32IsExact(b[16..], Truncated);
      TakeU32IsExact(b[16..][4..], Truncated);
    }
  }

  // ----------------------------------------------------------------- encoding

  /** `write_opt_str`, for a string whose length fits in `u32`. */
  function OptStr(value: Option<Str>): seq<byte> {
    match value
    case None => Le(MAX_U32, 4)
    case Some(v) => Le(|v|, 4) + v
  }

  predicate Writable(value: Option<Str>) { value.Some? ==> |value.value| <= MAX_U32 }

  predicate Encodable(value: SliceValue) {
    && Writable(value.header.etag) && Writable(value.header.lastModified) && Writable(value.header.contentType)
    && |value.payload| <= MAX_U32
  }

  function StringBytes(h: SliceHeader, rest: seq<byte>): seq<byte> {
    OptStr(h.etag) + (OptStr(h.lastModified) + (OptStr(h.contentType) + rest))
  }

  function HeaderBytes(h: SliceHeader, rest: seq<byte>): seq<byte> {
    Le(h.sliceSize, 4) + (Le(h.totalLen, 8) + (Le(h.generation, 4) + StringBytes(h, rest)))
  }

  function PayloadBytes(hash: Hash, payload: seq<byte>, rest: seq<byte>): seq<byte> {
    Le(hash(payload), 8) + (Le(|payload|, 4) + (payload + rest))
  }

  /** The bytes of a slice, followed by `rest`. */
  function ValueBytes(hash: Hash, value: SliceValue, rest: seq<byte>): seq<byte> {
    Le(MAGIC, 4) + HeaderBytes(value.header, PayloadBytes(hash, value.payload, rest))
  }

  method WriteOptStr(out: seq<byte>, value: Option<Str>) returns (r: Result<seq<byte>, EncodeError>)
    ensures r == if Writable(value) then Ok(out + OptStr(value)) else Err(StringTooLong)
  {
    if value.None? {
      return Ok(out + Le(MAX_U32, 4));
    }
    if |value.value| > MAX_U32 {
      return Err(StringTooLong);
    }
    Assoc(out, Le(|value.value|, 4), value.value);
    var prefixed := out + Le(|value.value|, 4);
    return Ok(prefixed + value.value);
  }

  method WriteStrings(out: seq<byte>, h: SliceHeader) returns (r: Result<seq<byte>, EncodeError>)
    ensures r.Ok? <==> Writable(h.etag) && Writable(h.lastModified) && Writable(h.contentType)
    ensures r.Err? ==> r.error == StringTooLong
    ensures r.Ok? ==> r.value == out + StringBytes(h, [])
  {
    var etag := WriteOptStr(out, h.etag);
    if etag.Err? { return etag; }
    var lastModified := WriteOptStr(etag.value, h.lastModified);
    if lastModified.Err? { return lastModified; }
    r := WriteOptStr(lastModified.value, h.contentType);
    Assoc(out + OptStr(h.etag), OptStr(h.lastModified), OptStr(h.contentType) + []);
    Assoc(out, OptStr(h.etag), OptStr(h.lastModified) + (OptStr(h.contentType) + []));
  }

  method EncodeHeader(out: seq<byte>, h: SliceHeader) returns (r: Result<seq<byte>, EncodeError>)
    ensures r.Ok? <==> Writable(h.etag) && Writable(h.lastModified) && Writable(h.contentType)
    ensures r.Err? ==> r.error == StringTooLong
    ensures r.Ok? ==> r.value == out + HeaderBytes(h, [])
  {
    ghost var strings := StringBytes(h, []);
    var w := out + Le(h.sliceSize, 4);
    Assoc(out, Le(h.sliceSize, 4), Le(h.totalLen, 8) + (Le(h.generation, 4) + strings));
    Assoc(w, Le(h.totalLen, 8), Le(h.generation, 4) + strings);
    w := w + Le(h.totalLen, 8);
    Assoc(w, Le(h.generation, 4), strings);
    w := w + Le(h.generation, 4);
    r := WriteStrings(w, h);
  }

  /** `SliceValue::encode`: fails exactly when some length does not fit in `u32`. */
  method Encode(hash: Hash, value: SliceValue) returns (r: Result<seq<byte>, EncodeError>)
    ensures r.Ok? <==> Encodable(value)
    ensures r.Ok? ==> r.value == ValueBytes(hash, value, [])
  {
    var header := EncodeHeader(Le(MAGIC, 4), value.header);
    if header.Err? { return header; }
    var w := header.value + Le(hash(value.payload), 8);
    if |value.payload| > MAX_U32 {
      return Err(PayloadTooLarge);
    }
    w := w + Le(|value.payload|, 4);
    w := w + value.payload;
    Laid(hash, value, header.value);
    return Ok(w);
  }

  lemma Laid(hash: Hash, value: SliceValue, head: seq<byte>)
    requires head == Le(MAGIC, 4) + HeaderBytes(value.header, [])
    ensures head + Le(hash(value.payload), 8) + Le(|value.payload|, 4) + value.payload == ValueBytes(hash, value, [])
  {
    var c, l, p := Le(hash(value.payload), 8), Le(|value.payload|, 4), value.payload;
    assert p + [] == p;
    HeaderThen(value.header, c + (l + p));
    Assoc(Le(MAGIC, 4), HeaderBytes(value.header, []), c + (l + p));
    Assoc(head, c, l + p);
    Assoc(head + c, l, p);
  }

  lemma HeaderThen(h: SliceHeader, rest: seq<byte>)
    ensures HeaderBytes(h, rest) == HeaderBytes(h, []) + rest
  {
    assert StringBytes(h, rest) == StringBytes(h, []) + rest;
  }

  // ----------------------------------------------------------- estimated size

  function OptStrLen(value: Option<Str>): nat {
    4 + if value.Some? then |value.value| else 0
  }

  function HeaderLen(h: SliceHeader): nat {
    4 + 8 + 4 + OptStrLen(h.etag) + OptStrLen(h.lastModified) + OptStrLen(h.contentType)
  }

  function EstimatedSize(value: SliceValue): nat {
    4 + HeaderLen(value.header) + 8 + 4 + |value.payload|
  }

  /** The estimate the cache weighs a slice by is the exact length of its encoding. */
  lemma EstimateIsExact(hash: Hash, value: SliceValue)
    ensures |ValueBytes(hash, value, [])| == EstimatedSize(value)
  {
    var h := value.header;
    var tail := PayloadBytes(hash, value.payload, []);
    assert |StringBytes(h, tail)| == OptStrLen(h.etag) + OptStrLen(h.lastModified) + OptStrLen(h.contentType) + |tail|;
  }

  // ----------------------------------------------------------------- decoding

  /** `read_opt_str`. */
  function TakeOptStr(b: seq<byte>): Parsed<Option<Str>, DecodeError> {
    var (len, b1) :- TakeU32(b, Truncated);
    if len == MAX_U32 then Got(None, b1)
    else
      var (bytes, b2) :- Take(b1, len, Truncated);
      if Utf8(bytes) then Got(Some(bytes), b2) else Cut(NotUtf8)
  }

  function ParseStrings(b: seq<byte>): Parsed<(Option<Str>, Option<Str>, Option<Str>), DecodeError> {
    var (etag, b1) :- TakeOptStr(b);
    var (lastModified, b2) :- TakeOptStr(b1);
    var (contentType, b3) :- TakeOptStr(b2);
    Got((etag, lastModified, contentType), b3)
  }

  function ParseHeader(b: seq<byte>): Parsed<SliceHeader, DecodeError> {
    var (sliceSize, b1) :- TakeU32(b, Truncated);
    var (totalLen, b2) :- TakeU64(b1, Truncated);
    var (generation, b3) :- TakeU32(b2, Truncated);
    var (strings, b4) :- ParseStrings(b3);
    Got(SliceHeader(sliceSize, totalLen, generation, strings.0, strings.1, strings.2), b4)
  }

  function ParsePayload(hash: Hash, b: seq<byte>): Parsed<seq<byte>, DecodeError> {
    var (expected, b1) :- TakeU64(b, Truncated);
    var (len, b2) :- TakeU32(b1, Truncated);
    var (payload, b3) :- Take(b2, len, Truncated);
    if hash(payload) != expected then Cut(ChecksumMismatch) else Got(payload, b3)
  }

  function ParseValue(hash: Hash, b: seq<byte>): Parsed<SliceValue, DecodeError> {
    var (magic, b1) :- TakeU32(b, Truncated);
    if magic != MAGIC then Cut(MagicMismatch)
    else
      var (header, b2) :- ParseHeader(b1);
      var (payload, b3) :- ParsePayload(hash, b2);
      Got(SliceValue(header, payload), b3)
  }

  /** The process-wide count of slices that failed their checksum. */
  class Failures {
    var checksums: nat

    constructor ()
      ensures checksums == 0
    {
      checksums := 0;
    }
  }

  method ReadOptStr(reader: Cursor) returns (r: Result<Option<Str>, DecodeError>)
    requires reader.Valid()
    modifies reader
    ensures reader.Valid()
    ensures match TakeOptStr(old(reader.Rest()))
            case Got(x, rest) => r == Ok(x) && reader.Rest() == rest
            case Cut(error) => r == Err(error)
  {
    var len := reader.U32(Truncated);
    if len.Err? { return Err(len.error); }
    if len.value == MAX_U32 { return Ok(None); }
    var bytes := reader.TakeBytes(len.value, Truncated);
    if bytes.Err? { return Err(bytes.error); }
    if !Utf8(bytes.value) { return Err(NotUtf8); }
    return Ok(Some(bytes.value));
  }

  method ReadStrings(reader: Cursor) returns (r: Result<(Option<Str>, Option<Str>, Option<Str>), DecodeError>)
    requires reader.Valid()
    modifies reader
    ensures reader.Valid()
    ensures match ParseStrings(old(reader.Rest()))
            case Got(x, rest) => r == Ok(x) && reader.Rest() == rest
            case Cut(error) => r == Err(error)
  {
    var etag := ReadOptStr(reader);
    if etag.Err? { return Err(etag.error); }
    var lastModified := ReadOptStr(reader);
    if lastModified.Err? { return Err(lastModified.error); }
    var contentType := ReadOptStr(reader);
    if contentType.Err? { return Err(contentType.error); }
    return Ok((etag.value, lastModified.value, contentType.value));
  }

  method DecodeHeader(reader: Cursor) returns (r: Result<SliceHeader, DecodeError>)
    requires reader.Valid()
    modifies reader
    ensures reader.Valid()
    ensures match ParseHeader(old(reader.Rest()))
            case Got(x, rest) => r == Ok(x) && reader.Rest() == rest
            case Cut(error) => r == Err(error)
  {
    var sliceSize := reader.U32(Truncated);
    if sliceSize.Err? { return Err(sliceSize.error); }
    var totalLen := reader.U64(Truncated);
    if totalLen.Err? { return Err(totalLen.error); }
    var generation := reader.U32(Truncated);
    if generation.Err? { return Err(generation.error); }
    var strings := ReadStrings(reader);
    if strings.Err? { return Err(strings.error); }
    return Ok(SliceHeader(sliceSize.value, totalLen.value, generation.value,
                          strings.value.0, strings.value.1, strings.value.2));
  }

  /** The checksum, the length and the payload; a mismatch is counted. */
  method DecodePayload(hash: Hash, reader: Cursor, failures: Failures) returns (r: Result<seq<byte>, DecodeError>)
    requires reader.Valid()
    modifies reader, failures
    ensures reader.Valid()
    ensures match ParsePayload(hash, old(reader.Rest()))
            case Got(x, rest) => r == Ok(x) && reader.Rest() == rest
            case Cut(error) => r == Err(error)
    ensures failures.checksums == old(failures.checksums) + if r == Err(ChecksumMismatch) then 1 else 0
  {
    var expected := reader.U64(Truncated);
    if expected.Err? { return Err(expected.error); }
    var len := reader.U32(Truncated);
    if len.Err? { return Err(len.error); }
    var payload := reader.TakeBytes(len.value, Truncated);
    if payload.Err? { return Err(payload.error); }
    if hash(payload.value) != expected.value {
      failures.checksums := failures.checksums + 1;
      return Err(ChecksumMismatch);
    }
    return Ok(payload.value);
  }

  /** `SliceValue::decode`: the counter grows exactly when the checksum is what is wrong. */
  method Decode(hash: Hash, reader: Cursor, failures: Failures) returns (r: Result<SliceValue, DecodeError>)
    requires reader.Valid()
    modifies reader, failures
    ensures reader.Valid()
    ensures match ParseValue(hash, old(reader.Rest()))
            case Got(x, rest) => r == Ok(x) && reader.Rest() == rest
            case Cut(error) => r == Err(error)
    ensures failures.checksums == old(failures.checksums) + if r == Err(ChecksumMismatch) then 1 else 0
  {
    var magic := reader.U32(Truncated);
    if magic.Err? { return Err(magic.error); }
    if magic.value != MAGIC { return Err(MagicMismatch); }
    ghost var b1 := reader.Rest();
    var header := DecodeHeader(reader);
    if header.Err? {
      HeaderErrors(b1);
      return Err(header.error);
    }
    var payload := DecodePayload(hash, reader, failures);
    if payload.Err? { return Err(payload.error); }
    return Ok(SliceValue(header.value, payload.value));
  }

  lemma HeaderErrors(b: seq<byte>)
    ensures ParseHeader(b).Cut? ==> ParseHeader(b).error != ChecksumMismatch
  {
  }

  // ----------------------------------------------------------- the round trip

  predicate IsText(value: Option<Str>) { value.Some? ==> Utf8(value.value) }

  predicate WellTyped(h: SliceHeader) { IsText(h.etag) && IsText(h.lastModified) && IsText(h.contentType) }

  /** Short enough to be told from an absent string. */
  predicate Fits(value: Option<Str>) { value.Some? ==> |value.value| < MAX_U32 }

  predicate AllFit(h: SliceHeader) { Fits(h.etag) && Fits(h.lastModified) && Fits(h.contentType) }

  lemma TakeOptStrGets(value: Option<Str>, rest: seq<byte>)
    requires IsText(value) && Fits(value)
    ensures TakeOptStr(OptStr(value) + rest) == Got(value, rest)
  {
    match value {
      case None => TakeU32Gets(MAX_U32, rest, Truncated);
      case Some(v) =>
        Assoc(Le(|v|, 4), v, rest);
        TakeU32Gets(|v|, v + rest, Truncated);
        TakeGets(v, rest, Truncated);
    }
  }

  /** A string of exactly `u32::MAX` bytes reads as absent. */
  lemma TakeOptStrMisses(v: Str, rest: seq<byte>)
    requires |v| == MAX_U32
    ensures TakeOptStr(OptStr(Some(v)) + rest) == Got(None, v + rest)
  {
    Assoc(Le(|v|, 4), v, rest);
    TakeU32Gets(MAX_U32, v + rest, Truncated);
  }

  /** What reads as a string or as its absence was written as exactly that, and it fits. */
  lemma TakeOptStrIsExact(b: seq<byte>)
    requires TakeOptStr(b).Got?
    ensures var got := TakeOptStr(b); b == OptStr(got.value) + got.rest && Fits(got.value) && IsText(got.value)
  {
    TakeU32IsExact(b, Truncated);
    var len, b1 := TakeU32(b, Truncated).value, TakeU32(b, Truncated).rest;
    if len != MAX_U32 {
      TakeIsExact(b1, len, Truncated);
      Assoc(Le(len, 4), b1[..len], b1[len..]);
    }
  }

  lemma StringsRoundTrip(h: SliceHeader, rest: seq<byte>)
    requires WellTyped(h) && AllFit(h)
    ensures ParseStrings(StringBytes(h, rest)) == Got((h.etag, h.lastModified, h.contentType), rest)
  {
    TakeOptStrGets(h.etag, OptStr(h.lastModified) + (OptStr(h.contentType) + rest));
    TakeOptStrGets(h.lastModified, OptStr(h.contentType) + rest);
    TakeOptStrGets(h.contentType, rest);
  }

  lemma HeaderRoundTrip(h: SliceHeader, rest: seq<byte>)
    requires WellTyped(h) && AllFit(h)
    ensures ParseHeader(HeaderBytes(h, rest)) == Got(h, rest)
  {
    var r3 := StringBytes(h, rest);
    var r2 := Le(h.generation, 4) + r3;
    var r1 := Le(h.totalLen, 8) + r2;
    TakeU32Gets(h.sliceSize, r1, Truncated);
    TakeU64Gets(h.totalLen, r2, Truncated);
    TakeU32Gets(h.generation, r3, Truncated);
    StringsRoundTrip(h, rest);
  }

  lemma PayloadRoundTrip(hash: Hash, payload: seq<byte>, rest: seq<byte>)
    requires |payload| <= MAX_U32
    ensures ParsePayload(hash, PayloadBytes(hash, payload, rest)) == Got(payload, rest)
  {
    var r2 := payload + rest;
    var r1 := Le(|payload|, 4) + r2;
    TakeU64Gets(hash(payload), r1, Truncated);
    TakeU32Gets(|payload|, r2, Truncated);
    TakeGets(payload, rest, Truncated);
  }

  lemma ValueRoundTrip(hash: Hash, value: SliceValue, rest: seq<byte>)
    requires WellTyped(value.header) && AllFit(value.header) && |value.payload| <= MAX_U32
    ensures ParseValue(hash, ValueBytes(hash, value, rest)) == Got(value, rest)
  {
    var r2 := PayloadBytes(hash, value.payload, rest);
    TakeU32Gets(MAGIC, HeaderBytes(value.header, r2), Truncated);
    HeaderRoundTrip(value.header, r2);
    PayloadRoundTrip(hash, value.payload, rest);
  }

  lemma StringsAreExact(b: seq<byte>)
    requires ParseStrings(b).Got?
    ensures var got := ParseStrings(b);
            var (etag, lastModified, contentType) := got.value;
            && b == OptStr(etag) + (OptStr(lastModified) + (OptStr(contentType) + got.rest))
            && Fits(etag) && Fits(lastModified) && Fits(contentType)
            && IsText(etag) && IsText(lastModified) && IsText(contentType)
  {
    var b1 := TakeOptStr(b).rest;
    var b2 := TakeOptStr(b1).rest;
    TakeOptStrIsExact(b);
    TakeOptStrIsExact(b1);
    TakeOptStrIsExact(b2);
  }

  lemma HeaderIsExact(b: seq<byte>)
    requires ParseHeader(b).Got?
    ensures var got := ParseHeader(b);
            b == HeaderBytes(got.value, got.rest) && AllFit(got.value) && WellTyped(got.value)
  {
    var b1 := TakeU32(b, Truncated).rest;
    var b2 := TakeU64(b1, Truncated).rest;
    var b3 := TakeU32(b2, Truncated).rest;
    TakeU32IsExact(b, Truncated);
    TakeU64IsExact(b1, Truncated);
    TakeU32IsExact(b2, Truncated);
    StringsAreExact(b3);
  }

  lemma PayloadIsExact(hash: Hash, b: seq<byte>)
    requires ParsePayload(hash, b).Got?
    ensures var got := ParsePayload(hash, b);
            b == PayloadBytes(hash, got.value, got.rest) && |got.value| <= MAX_U32
  {
    var b1 := TakeU64(b, Truncated).rest;
    var b2 := TakeU32(b1, Truncated).rest;
    TakeU64IsExact(b, Truncated);
    TakeU32IsExact(b1, Truncated);
    TakeIsExact(b2, TakeU32(b1, Truncated).value, Truncated);
  }

  /**
    The format is canonical: a byte string decodes to a slice if and only if it is the
    encoding of that slice and none of its strings is as long as the absence mark.
   */
  lemma DecodesIffEncoded(hash: Hash, b: seq<byte>, value: SliceValue, rest: seq<byte>)
    requires WellTyped(value.header) && Encodable(value)
    ensures ParseValue(hash, b) == Got(value, rest) <==> b == ValueBytes(hash, value, rest) && AllFit(value.header)
  {
    if AllFit(value.header) { ValueRoundTrip(hash, value, rest); }
    if ParseValue(hash, b) == Got(value, rest) {
      var b1 := TakeU32(b, Truncated).rest;
      TakeU32IsExact(b, Truncated);
      HeaderIsExact(b1);
      PayloadIsExact(hash, ParseHeader(b1).rest);
    }
  }

  /** Only a slice whose payload hashes to its stored checksum ever decodes. */
  lemma DecodedPayloadMatchesChecksum(hash: Hash, b: seq<byte>)
    requires ParseValue(hash, b).Got?
    ensures var got := ParseValue(hash, b);
            var value := got.value;
            && b == ValueBytes(hash, value, got.rest)
            && WellTyped(value.header) && AllFit(value.header) && |value.payload| <= MAX_U32
  {
    var b1 := TakeU32(b, Truncated).rest;
    TakeU32IsExact(b, Truncated);
    HeaderIsExact(b1);
    PayloadIsExact(hash, ParseHeader(b1).rest);
  }

  lemma ValueExtends(hash: Hash, b: seq<byte>, more: seq<byte>)
    requires ParseValue(hash, b).Got?
    ensures var got := ParseValue(hash, b); ParseValue(hash, b + more) == Got(got.value, got.rest + more)
  {
    var got := ParseValue(hash, b);
    DecodedPayloadMatchesChecksum(hash, b);
    ValueThen(hash, got.value, got.rest, more);
    ValueRoundTrip(hash, got.value, got.rest + more);
  }

  /** Cut short anywhere, an encoded slice does not decode. */
  lemma NoStrictPrefixDecodes(hash: Hash, value: SliceValue, n: nat)
    requires WellTyped(value.header) && AllFit(value.header) && |value.payload| <= MAX_U32
    requires n < |ValueBytes(hash, value, [])|
    ensures ParseValue(hash, ValueBytes(hash, value, [])[..n]).Cut?
  {
    ValueRoundTrip(hash, value, []);
    PrefixIsCut(hash, ValueBytes(hash, value, []), n);
  }

  lemma PrefixIsCut(hash: Hash, whole: seq<byte>, n: nat)
    requires n < |whole| && ParseValue(hash, whole).Got? && ParseValue(hash, whole).rest == []
    ensures ParseValue(hash, whole[..n]).Cut?
  {
    var b, more := whole[..n], whole[n..];
    assert whole == b + more;
    if ParseValue(hash, b).Got? {
      ValueExtends(hash, b, more);
      assert false;
    }
  }

  lemma ValueThen(hash: Hash, value: SliceValue, rest: seq<byte>, more: seq<byte>)
    ensures ValueBytes(hash, value, rest) + more == ValueBytes(hash, value, rest + more)
  {
    var p, q := PayloadBytes(hash, value.payload, rest), PayloadBytes(hash, value.payload, rest + more);
    assert p + more == q;
    HeaderThen(value.header, p);
    HeaderThen(value.header, q);
    Assoc(HeaderBytes(value.header, []), p, more);
    Assoc(Le(MAGIC, 4), HeaderBytes(value.header, p), more);
  }
}
