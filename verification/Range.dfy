/**
  Range parsing and slice-plan arithmetic.

  The central fact is tiling: the payload windows of a plan, laid end to end, are
  exactly the requested bytes, and this holds if and only if the request ends
  inside the part of the object that `u32` slice indices can address.
 */
module Range {
  import opened Core
  import opened Text

  datatype RangeSpec =
    | FromTo(first: u64, last: u64)
    | From(start: u64)
    | Suffix(count: u64)

  datatype ByteRange = ByteRange(start: u64, end: u64) {
    predicate Valid() { start <= end }

    /** The length of an inclusive range; the full `u64` span does not fit in `u64`. */
    function Len(): nat
      requires Valid()
    {
      end - start + 1
    }
  }

  datatype RangeError = Malformed | Multiple | Unsatisfiable

  datatype SlicePlan = SlicePlan(first: u32, last: u32, sliceSize: u32) {
    /** The mathematical value of `count()`; the source computes it in `u32`. */
    function Count(): int { last - first + 1 }
  }

  type SliceSize = s: u32 | 0 < s witness 1

  // ---------------------------------------------------------------- parsing

  function ParseRange(value: string): Result<RangeSpec, RangeError> {
    var trimmed := Trim(value);
    if "bytes=" <= trimmed then ParseSpec(trimmed[6..]) else Err(Malformed)
  }

  function ParseSpec(spec: string): Result<RangeSpec, RangeError> {
    if ',' in spec then Err(Multiple)
    else
      var dash := Find(spec, '-', 0);
      if dash == |spec| then Err(Malformed)
      else ParseBounds(Trim(spec[..dash]), Trim(spec[dash + 1..]))
  }

  function ParseBounds(start: string, end: string): Result<RangeSpec, RangeError> {
    if start == "" && end == "" then Err(Malformed)
    else if start == "" then
      match ParseU64(end)
      case None => Err(Malformed)
      case Some(n) => Ok(Suffix(n))
    else if end == "" then
      match ParseU64(start)
      case None => Err(Malformed)
      case Some(n) => Ok(From(n))
    else
      match (ParseU64(start), ParseU64(end))
      case (Some(a), Some(b)) => if a > b then Err(Malformed) else Ok(FromTo(a, b))
      case _ => Err(Malformed)
  }

  /** A spec whose bounds, if both are given, are in order: all that `ParseRange` returns. */
  predicate WellFormed(spec: RangeSpec) {
    spec.FromTo? ==> spec.first <= spec.last
  }

  /** The header value a client writes for a spec. */
  function FormatRange(spec: RangeSpec): string {
    match spec
    case FromTo(a, b) => FormatBounds(Decimal(a), Decimal(b))
    case From(a) => FormatBounds(Decimal(a), "")
    case Suffix(n) => FormatBounds("", Decimal(n))
  }

  function FormatBounds(start: string, end: string): string {
    "bytes=" + (start + "-" + end)
  }

  lemma ParsedRangesAreWellFormed(value: string)
    ensures ParseRange(value).Ok? ==> WellFormed(ParseRange(value).value)
    ensures ParseRange(value).Err? ==> ParseRange(value).error != Unsatisfiable
  {
  }

  /** Parsing inverts printing, for every spec a client can mean. */
  lemma ParseInvertsFormat(spec: RangeSpec)
    requires WellFormed(spec)
    ensures ParseRange(FormatRange(spec)) == Ok(spec)
  {
    match spec {
      case FromTo(a, b) => StripsPrefix(Decimal(a), Decimal(b)); ParseDecimal(a); ParseDecimal(b);
      case From(a) => StripsPrefix(Decimal(a), ""); ParseDecimal(a);
      case Suffix(n) => StripsPrefix("", Decimal(n)); ParseDecimal(n);
    }
  }

  lemma StripsPrefix(start: string, end: string)
    requires AllDigits(start) && AllDigits(end)
    ensures ParseRange(FormatBounds(start, end)) == ParseBounds(start, end)
  {
    var spec := start + "-" + end;
    var text := FormatBounds(start, end);
    assert text[|text| - 1] == spec[|spec| - 1];
    TrimmedIsFixed(text);
    assert text[6..] == spec;
    SplitsAtDash(start, end);
  }

  /** Two digit strings around a dash come back as the two bounds. */
  lemma SplitsAtDash(start: string, end: string)
    requires AllDigits(start) && AllDigits(end)
    ensures ParseSpec(start + "-" + end) == ParseBounds(start, end)
  {
    var spec := start + "-" + end;
    assert spec[|start|] == '-';
    var dash := Find(spec, '-', 0);
    assert forall j :: 0 <= j < |start| ==> spec[j] == start[j];
    assert dash == |start|;
    assert spec[..dash] == start && spec[dash + 1..] == end;
    TrimmedIsFixed(start);
    TrimmedIsFixed(end);
  }

  // -------------------------------------------------------------- resolving

  function Resolve(spec: RangeSpec, total: u64): Result<ByteRange, RangeError> {
    if total == 0 then Err(Unsatisfiable)
    else
      var last := total - 1;
      match spec
      case FromTo(start, end) =>
        if start > last then Err(Unsatisfiable) else Ok(ByteRange(start, Min(end, last)))
      case From(start) =>
        if start > last then Err(Unsatisfiable) else Ok(ByteRange(start, last))
      case Suffix(n) =>
        if n == 0 then Err(Unsatisfiable)
        else
          var n := Min(n, total);
          Ok(ByteRange(total - n, last))
  }

  function Whole(total: u64): Option<ByteRange> {
    if total > 0 then Some(ByteRange(0, total - 1)) else None
  }

  /** The byte positions of a `total`-byte object that a spec asks for (RFC 9110, section 14.1.2). */
  predicate Asks(spec: RangeSpec, total: u64, position: nat) {
    && position < total
    && match spec
       case FromTo(a, b) => a <= position <= b
       case From(a) => a <= position
       case Suffix(n) => total - n <= position
  }

  /** `Resolve` succeeds exactly when some byte is asked for, and then selects exactly those bytes. */
  lemma ResolveSelectsExactlyWhatIsAsked(spec: RangeSpec, total: u64)
    requires WellFormed(spec)
    ensures Resolve(spec, total).Ok? <==> exists position: nat :: Asks(spec, total, position)
    ensures Resolve(spec, total).Ok? ==>
              var r := Resolve(spec, total).value;
              && r.Valid() && r.end < total
              && forall position: nat :: r.start <= position <= r.end <==> Asks(spec, total, position)
    ensures Resolve(spec, total).Err? ==> Resolve(spec, total).error == Unsatisfiable
  {
    if Resolve(spec, total).Ok? {
      assert Asks(spec, total, Resolve(spec, total).value.start);
    }
  }

  // --------------------------------------------------------------- planning

  function MaxAddressableLen(sliceSize: SliceSize): u64 {
    (MAX_U32 + 1) * sliceSize
  }

  function ToIndex(position: u64, sliceSize: SliceSize): u32 {
    Min(position / sliceSize, MAX_U32)
  }

  function Plan(range: ByteRange, sliceSize: SliceSize): SlicePlan {
    var first := ToIndex(range.start, sliceSize);
    var last := Max(ToIndex(range.end, sliceSize), first);
    SlicePlan(first, last, sliceSize)
  }

  /** Where slice `index` starts; the product of two `u32` values fits in `u64`. */
  function SliceStart(index: u32, sliceSize: SliceSize): (start: u64)
    ensures start + sliceSize <= MaxAddressableLen(sliceSize)
  {
    SliceStartFits(index, sliceSize);
    index * sliceSize
  }

  lemma SliceStartFits(index: u32, sliceSize: SliceSize)
    ensures 0 <= index * sliceSize
    ensures index * sliceSize + sliceSize <= (MAX_U32 + 1) * sliceSize <= MAX_U64
  {
    MulMonotone(index + 1, MAX_U32 + 1, sliceSize);
    assert (index + 1) * sliceSize == index * sliceSize + sliceSize;
  }

  function SliceExtent(index: u32, sliceSize: SliceSize, total: u64): ByteRange {
    var start := SliceStart(index, sliceSize);
    ByteRange(start, Min(start + sliceSize - 1, SatSub(total, 1)))
  }

  /**
    The offsets into slice `index` that satisfy `wanted`. The subtraction needs the
    slice to start no later than the wanted range ends.
   */
  function PayloadWindow(index: u32, sliceSize: SliceSize, wanted: ByteRange): (window: (u64, u64))
    requires SliceStart(index, sliceSize) <= wanted.end
    ensures window.1 <= sliceSize && SliceStart(index, sliceSize) + window.1 <= wanted.end + 1
    ensures wanted.end < MAX_U64 ==> wanted.end - SliceStart(index, sliceSize) + 1 <= MAX_U64
  {
    var sliceStart := SliceStart(index, sliceSize);
    var from := SatSub(wanted.start, sliceStart);
    var to := Min(wanted.end - sliceStart + 1, sliceSize);
    (from, to)
  }

  /** `x / s` is the index of the slice that holds byte `x`. */
  lemma DivisionBrackets(x: nat, s: SliceSize)
    ensures (x / s) * s <= x < (x / s) * s + s
  {
  }

  /**
    The sum inside `PayloadWindow` fits in `u64`, but for the first slice of a range that
    ends at the very last `u64`; a range resolved against an object never ends there.
   */
  lemma WindowSumFitsIff(index: u32, s: SliceSize, wanted: ByteRange)
    requires SliceStart(index, s) <= wanted.end
    ensures wanted.end - SliceStart(index, s) + 1 <= MAX_U64 <==> index > 0 || wanted.end < MAX_U64
    ensures forall spec, total :: Resolve(spec, total) == Ok(wanted) ==> wanted.end < MAX_U64
  {
    if index > 0 { MulMonotone(1, index, s); }
  }

  /** Every planned slice starts inside the range, so `PayloadWindow` never underflows. */
  lemma PlannedSliceStartsInRange(index: u32, s: SliceSize, wanted: ByteRange)
    requires wanted.Valid()
    requires Plan(wanted, s).first <= index <= Plan(wanted, s).last
    ensures SliceStart(index, s) <= wanted.end
  {
    DivisionBrackets(wanted.end, s);
    assert wanted.start / s <= wanted.end / s by { DivisionMonotone(wanted.start, wanted.end, s); }
    MulMonotone(index, wanted.end / s, s);
  }

  lemma DivisionMonotone(a: nat, b: nat, s: SliceSize)
    requires a <= b
    ensures a / s <= b / s
  {
    DivisionBrackets(a, s);
    DivisionBrackets(b, s);
    if a / s > b / s {
      MulMonotone(b / s + 1, a / s, s);
    }
  }

  // ----------------------------------------------------------------- tiling

  /** What the slice task returns for slice `index`: the bytes of its extent. */
  function SlicePayload(content: seq<byte>, sliceSize: SliceSize, index: u32): (payload: seq<byte>)
    requires SliceStart(index, sliceSize) < |content| <= MAX_U64
    ensures payload != [] && |payload| <= sliceSize
  {
    var extent := SliceExtent(index, sliceSize, |content|);
    content[extent.start..extent.end + 1]
  }

  /** Bytes below the addressable length have an index that does not saturate. */
  lemma AddressableIndex(position: u64, s: SliceSize)
    ensures position < MaxAddressableLen(s) <==> position / s <= MAX_U32
  {
    DivisionBrackets(position, s);
    if position / s <= MAX_U32 {
      MulMonotone(position / s, MAX_U32, s);
    } else {
      MulMonotone(MAX_U32 + 1, position / s, s);
    }
  }

  /** Inside the addressable part every planned window is non-empty and inside its slice's extent. */
  lemma WindowInsideExtent(index: u32, s: SliceSize, wanted: ByteRange, total: u64)
    requires wanted.Valid() && wanted.end < total
    requires wanted.end < MaxAddressableLen(s)
    requires Plan(wanted, s).first <= index <= Plan(wanted, s).last
    ensures SliceStart(index, s) <= wanted.end
    ensures var (from, to) := PayloadWindow(index, s, wanted);
            from < to <= SliceExtent(index, s, total).Len()
  {
    PlannedSliceStartsInRange(index, s, wanted);
    AddressableIndex(wanted.end, s);
    DivisionMonotone(wanted.start, wanted.end, s);
    DivisionBrackets(wanted.start, s);
    MulMonotone(wanted.start / s, index, s);
  }

  /** The slice with the largest planned index is the one that holds the last wanted byte. */
  lemma LastSliceHoldsEnd(s: SliceSize, wanted: ByteRange)
    requires wanted.Valid() && wanted.end < MaxAddressableLen(s)
    ensures wanted.end < SliceStart(Plan(wanted, s).last, s) + s
  {
    AddressableIndex(wanted.end, s);
    DivisionMonotone(wanted.start, wanted.end, s);
    DivisionBrackets(wanted.end, s);
  }

  /** The `k`-th slice index of a plan. */
  function PlanIndex(s: SliceSize, wanted: ByteRange, k: nat): u32
    requires k < Plan(wanted, s).Count()
  {
    Plan(wanted, s).first + k
  }

  /** The absolute position at which the `k`-th window of a plan begins. */
  function Cut(s: SliceSize, wanted: ByteRange, k: nat): nat
    requires k <= Plan(wanted, s).Count()
  {
    if k == 0 then wanted.start
    else Min(wanted.end + 1, SliceStart(PlanIndex(s, wanted, k - 1), s) + s)
  }

  /** In absolute positions a window is the wanted range clipped to the slice. */
  lemma WindowClips(index: u32, s: SliceSize, wanted: ByteRange)
    requires wanted.Valid() && SliceStart(index, s) <= wanted.end
    ensures SliceStart(index, s) + PayloadWindow(index, s, wanted).0 == Max(wanted.start, SliceStart(index, s))
    ensures SliceStart(index, s) + PayloadWindow(index, s, wanted).1 == Min(wanted.end + 1, SliceStart(index, s) + s)
  {
  }

  lemma FirstSliceStartsBefore(s: SliceSize, wanted: ByteRange)
    ensures SliceStart(Plan(wanted, s).first, s) <= wanted.start
  {
    DivisionBrackets(wanted.start, s);
    MulMonotone(Plan(wanted, s).first, wanted.start / s, s);
  }

  lemma LaterSlicesStartAfter(s: SliceSize, wanted: ByteRange, index: u32)
    requires Plan(wanted, s).first < index
    ensures wanted.start <= SliceStart(index, s)
  {
    DivisionBrackets(wanted.start, s);
    MulMonotone(wanted.start / s + 1, index, s);
  }

  lemma SlicesAbut(s: SliceSize, index: u32)
    requires 0 < index
    ensures SliceStart(index, s) == SliceStart(index - 1, s) + s
  {
  }

  /** In absolute positions the `k`-th window runs from one cut to the next. */
  lemma WindowRunsBetweenCuts(s: SliceSize, wanted: ByteRange, k: nat)
    requires wanted.Valid() && k < Plan(wanted, s).Count()
    ensures var index := PlanIndex(s, wanted, k);
            && SliceStart(index, s) <= wanted.end
            && SliceStart(index, s) + PayloadWindow(index, s, wanted).0 == Cut(s, wanted, k)
            && SliceStart(index, s) + PayloadWindow(index, s, wanted).1 == Cut(s, wanted, k + 1)
  {
    var index := PlanIndex(s, wanted, k);
    PlannedSliceStartsInRange(index, s, wanted);
    WindowClips(index, s, wanted);
    if k == 0 {
      FirstSliceStartsBefore(s, wanted);
    } else {
      LaterSlicesStartAfter(s, wanted, index);
      SlicesAbut(s, index);
    }
  }

  /** The bytes the response takes from slice `index`. */
  function Piece(content: seq<byte>, s: SliceSize, wanted: ByteRange, index: u32): (piece: seq<byte>)
    requires wanted.Valid() && wanted.end < |content| <= MAX_U64
    requires wanted.end < MaxAddressableLen(s)
    requires Plan(wanted, s).first <= index <= Plan(wanted, s).last
    ensures piece != []
  {
    WindowInsideExtent(index, s, wanted, |content|);
    var (from, to) := PayloadWindow(index, s, wanted);
    SlicePayload(content, s, index)[from..to]
  }

  lemma PieceIsContent(content: seq<byte>, s: SliceSize, wanted: ByteRange, k: nat)
    requires wanted.Valid() && wanted.end < |content| <= MAX_U64
    requires wanted.end < MaxAddressableLen(s) && k < Plan(wanted, s).Count()
    ensures Cut(s, wanted, k) < Cut(s, wanted, k + 1) <= |content|
    ensures Piece(content, s, wanted, PlanIndex(s, wanted, k))
         == content[Cut(s, wanted, k)..Cut(s, wanted, k + 1)]
  {
    var index := PlanIndex(s, wanted, k);
    WindowInsideExtent(index, s, wanted, |content|);
    WindowRunsBetweenCuts(s, wanted, k);
    var extent := SliceExtent(index, s, |content|);
    SliceOfSlice(content, extent.start, extent.end + 1, PayloadWindow(index, s, wanted));
  }

  lemma SliceOfSlice(content: seq<byte>, lo: nat, hi: nat, window: (nat, nat))
    requires lo <= hi <= |content| && window.0 <= window.1 <= hi - lo
    ensures content[lo..hi][window.0..window.1] == content[lo + window.0..lo + window.1]
  {
    var whole := content[lo..hi];
    assert forall j :: 0 <= j < hi - lo ==> whole[j] == content[lo + j];
  }

  /** Byte strings laid end to end. */
  function Flatten(pieces: seq<seq<byte>>): seq<byte> {
    if pieces == [] then [] else Flatten(pieces[..|pieces| - 1]) + pieces[|pieces| - 1]
  }

  /** The pieces of a plan, in order. */
  function PlanPieces(content: seq<byte>, s: SliceSize, wanted: ByteRange): (pieces: seq<seq<byte>>)
    requires wanted.Valid() && wanted.end < |content| <= MAX_U64
    requires wanted.end < MaxAddressableLen(s)
    ensures |pieces| == Plan(wanted, s).Count()
  {
    seq(Plan(wanted, s).Count(),
        k requires 0 <= k < Plan(wanted, s).Count() => Piece(content, s, wanted, PlanIndex(s, wanted, k)))
  }

  /** Any leading pieces are a leading part of the requested bytes. */
  lemma {:induction false} LeadingPiecesAreContent(content: seq<byte>, s: SliceSize, wanted: ByteRange, k: nat)
    requires wanted.Valid() && wanted.end < |content| <= MAX_U64
    requires wanted.end < MaxAddressableLen(s) && k <= Plan(wanted, s).Count()
    ensures wanted.start <= Cut(s, wanted, k) <= wanted.end + 1
    ensures Flatten(PlanPieces(content, s, wanted)[..k]) == content[wanted.start..Cut(s, wanted, k)]
  {
    var pieces := PlanPieces(content, s, wanted);
    if k > 0 {
      LeadingPiecesAreContent(content, s, wanted, k - 1);
      PieceIsContent(content, s, wanted, k - 1);
      assert pieces[..k][..k - 1] == pieces[..k - 1];
      Abut(content, wanted.start, Cut(s, wanted, k - 1), Cut(s, wanted, k));
    }
  }

  lemma Abut(content: seq<byte>, a: nat, b: nat, c: nat)
    requires a <= b <= c <= |content|
    ensures content[a..b] + content[b..c] == content[a..c]
  {
  }

  /** The windows of the whole plan, laid end to end, are exactly the requested bytes. */
  lemma PlanTilesTheRange(content: seq<byte>, s: SliceSize, wanted: ByteRange)
    requires wanted.Valid() && wanted.end < |content| <= MAX_U64
    requires wanted.end < MaxAddressableLen(s)
    ensures Flatten(PlanPieces(content, s, wanted)) == content[wanted.start..wanted.end + 1]
  {
    var pieces := PlanPieces(content, s, wanted);
    LeadingPiecesAreContent(content, s, wanted, |pieces|);
    LastCutIsEnd(s, wanted);
    Everything(pieces);
  }

  lemma LastCutIsEnd(s: SliceSize, wanted: ByteRange)
    requires wanted.Valid() && wanted.end < MaxAddressableLen(s)
    ensures Cut(s, wanted, Plan(wanted, s).Count()) == wanted.end + 1
  {
    LastSliceHoldsEnd(s, wanted);
  }

  lemma Everything(pieces: seq<seq<byte>>)
    ensures pieces[..|pieces|] == pieces
  {
  }

  // ------------------------------------------------- exactly when it tiles

  /** The lengths of the first `k` windows, summed; a window may be inverted. */
  function WindowSum(s: SliceSize, wanted: ByteRange, k: nat): int
    requires wanted.Valid() && k <= Plan(wanted, s).Count()
  {
    if k == 0 then 0
    else
      var index := PlanIndex(s, wanted, k - 1);
      PlannedSliceStartsInRange(index, s, wanted);
      WindowSum(s, wanted, k - 1) + PayloadWindow(index, s, wanted).1 - PayloadWindow(index, s, wanted).0
  }

  lemma {:induction false} WindowSumTelescopes(s: SliceSize, wanted: ByteRange, k: nat)
    requires wanted.Valid() && k <= Plan(wanted, s).Count()
    ensures WindowSum(s, wanted, k) == Cut(s, wanted, k) - wanted.start
  {
    if k > 0 {
      WindowSumTelescopes(s, wanted, k - 1);
      WindowRunsBetweenCuts(s, wanted, k - 1);
    }
  }

  /**
    For any range at all, the planned windows add up to the requested length if and
    only if the range ends below the addressable length; otherwise saturation drops
    exactly the bytes past it.
   */
  lemma WindowsCoverIffAddressable(s: SliceSize, wanted: ByteRange)
    requires wanted.Valid()
    ensures WindowSum(s, wanted, Plan(wanted, s).Count())
         == Min(wanted.end + 1, MaxAddressableLen(s)) - wanted.start
    ensures WindowSum(s, wanted, Plan(wanted, s).Count()) == wanted.Len()
       <==> wanted.end < MaxAddressableLen(s)
  {
    WindowSumTelescopes(s, wanted, Plan(wanted, s).Count());
    if wanted.end < MaxAddressableLen(s) {
      LastSliceHoldsEnd(s, wanted);
    } else {
      AddressableIndex(wanted.end, s);
    }
  }

  /** `count()` fits in `u32` unless the plan spans all 2^32 indices. */
  lemma CountOverflowsIffAllIndices(s: SliceSize, wanted: ByteRange)
    requires wanted.Valid()
    ensures 1 <= Plan(wanted, s).Count()
    ensures Plan(wanted, s).Count() <= MAX_U32
       <==> !(wanted.start < s && SliceStart(MAX_U32, s) <= wanted.end)
  {
    DivisionBrackets(wanted.start, s);
    DivisionBrackets(wanted.end, s);
    if wanted.end / s < MAX_U32 {
      MulMonotone(wanted.end / s + 1, MAX_U32, s);
    } else {
      MulMonotone(MAX_U32, wanted.end / s, s);
    }
    if 1 <= wanted.start / s {
      MulMonotone(1, wanted.start / s, s);
    }
  }
}
