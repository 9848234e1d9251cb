/** Sizes and durations in the configuration: a number, an optional unit, and no silent overflow. */
module Units {
  import opened Core
  import opened Text

  datatype ParseError =
    | Empty
    | Malformed(text: string)
    | UnknownUnit(input: string, unit: string)
    | Overflow(text: string)

  /** The length of the leading run of digits. */
  function DigitCount(s: string): (k: nat)
    ensures k <= |s| && AllDigits(s[..k]) && (k < |s| ==> !IsDigit(s[k]))
  {
    if s == "" || !IsDigit(s[0]) then 0
    else
      var k := 1 + DigitCount(s[1..]);
      assert s[..k] == [s[0]] + s[1..][..k - 1];
      k
  }

  /** `split`: the number in front and what follows it. */
  function Split(input: string): Result<(u64, string), ParseError> {
    var trimmed := Trim(input);
    if trimmed == "" then Err(Empty)
    else
      var digits := DigitCount(trimmed);
      if digits == 0 then Err(Malformed(trimmed))
      else
        match ParseU64(trimmed[..digits])
        case None => Err(Overflow(trimmed))
        case Some(value) => Ok((value, Trim(trimmed[digits..])))
  }

  function SizeUnit(unit: string): Option<u64> {
    if unit == "" || unit == "b" then Some(1)
    else if unit == "k" || unit == "kib" then Some(0x400)
    else if unit == "m" || unit == "mib" then Some(0x10_0000)
    else if unit == "g" || unit == "gib" then Some(0x4000_0000)
    else if unit == "t" || unit == "tib" then Some(0x100_0000_0000)
    else if unit == "kb" then Some(1_000)
    else if unit == "mb" then Some(1_000_000)
    else if unit == "gb" then Some(1_000_000_000)
    else if unit == "tb" then Some(1_000_000_000_000)
    else None
  }

  function DurationUnit(unit: string): Option<u64> {
    if unit == "" || unit == "s" || unit == "sec" || unit == "secs" then Some(1)
    else if unit == "m" || unit == "min" || unit == "mins" then Some(60)
    else if unit == "h" || unit == "hr" || unit == "hrs" then Some(3_600)
    else if unit == "d" || unit == "day" || unit == "days" then Some(86_400)
    else if unit == "w" || unit == "week" || unit == "weeks" then Some(604_800)
    else None
  }

  /** The part the two parsers share: the number times its unit, checked. */
  function Scaled(input: string, units: string -> Option<u64>): Result<u64, ParseError> {
    match Split(input)
    case Err(e) => Err(e)
    case Ok((value, unit)) =>
      match units(Lower(unit))
      case None => Err(UnknownUnit(Trim(input), Lower(unit)))
      case Some(multiplier) =>
        if value * multiplier > MAX_U64 then Err(Overflow(Trim(input))) else Ok(value * multiplier)
  }

  function ParseSize(input: string): Result<u64, ParseError> {
    Scaled(input, SizeUnit)
  }

  /** The duration in seconds. */
  function ParseDuration(input: string): Result<u64, ParseError> {
    Scaled(input, DurationUnit)
  }

  /** `text` is a run of digits, then a unit that `units` knows, spelled in any case and set off by any white space. */
  predicate Reads(text: string, units: string -> Option<u64>, digits: string, unit: string) {
    && text == digits + unit && digits != "" && AllDigits(digits)
    && (unit != "" ==> !IsDigit(unit[0]))
    && units(Lower(Trim(unit))).Some?
  }

  lemma DigitsAreSplitOff(digits: string, unit: string)
    requires AllDigits(digits) && (unit != "" ==> !IsDigit(unit[0]))
    ensures DigitCount(digits + unit) == |digits|
    ensures (digits + unit)[..|digits|] == digits && (digits + unit)[|digits|..] == unit
  {
    var text := digits + unit;
    assert forall j :: 0 <= j < |digits| ==> text[j] == digits[j];
    assert unit != "" ==> text[|digits|] == unit[0];
    assert forall j :: 0 <= j < DigitCount(text) ==> text[..DigitCount(text)][j] == text[j];
  }

  /**
    A value is read if and only if the text is digits and a known unit whose exact product
    is that value and fits in `u64`; so no parser ever returns a wrapped or rounded value.
   */
  lemma ScaledIsExact(input: string, units: string -> Option<u64>, v: u64)
    requires forall u :: units(u).Some? ==> units(u).value >= 1
    ensures Scaled(input, units) == Ok(v) <==>
            exists digits, unit ::
              Reads(Trim(input), units, digits, unit) && DigitsValue(digits) * units(Lower(Trim(unit))).value == v
  {
    var text := Trim(input);
    if Scaled(input, units) == Ok(v) {
      var k := DigitCount(text);
      assert text == text[..k] + text[k..];
      NoSign(text[..k]);
      assert Reads(text, units, text[..k], text[k..]);
    }
    if digits, unit :| Reads(text, units, digits, unit) && DigitsValue(digits) * units(Lower(Trim(unit))).value == v {
      DigitsAreSplitOff(digits, unit);
      NoSign(digits);
      Factor(DigitsValue(digits), units(Lower(Trim(unit))).value);
    }
  }

  lemma Factor(a: nat, m: nat)
    requires m >= 1
    ensures a <= a * m
  {
  }

  /** A run of digits has no sign, so the number is read as written. */
  lemma NoSign(digits: string)
    requires digits != "" && AllDigits(digits)
    ensures ParseU64(digits) == if DigitsValue(digits) > MAX_U64 then None else Some(DigitsValue(digits))
  {
    assert IsDigit(digits[0]);
  }

  /** A size is the exact product of its number and its unit, or an error. */
  lemma SizesAreExact(input: string, v: u64)
    ensures ParseSize(input) == Ok(v) <==>
            exists digits, unit ::
              Reads(Trim(input), SizeUnit, digits, unit) && DigitsValue(digits) * SizeUnit(Lower(Trim(unit))).value == v
  {
    ScaledIsExact(input, SizeUnit, v);
  }

  /** So is a duration. */
  lemma DurationsAreExact(input: string, v: u64)
    ensures ParseDuration(input) == Ok(v) <==>
            exists digits, unit ::
              && Reads(Trim(input), DurationUnit, digits, unit)
              && DigitsValue(digits) * DurationUnit(Lower(Trim(unit))).value == v
  {
    ScaledIsExact(input, DurationUnit, v);
  }

  // --------------------------------------------------------------- printing

  const UNITS: seq<(string, u64)> :=
    [("TiB", 0x100_0000_0000), ("GiB", 0x4000_0000), ("MiB", 0x10_0000), ("KiB", 0x400)]

  /** The count in the first unit that divides it, or in bytes. */
  function FormatWith(bytes: u64, units: seq<(string, u64)>): string
    requires forall i :: 0 <= i < |units| ==> units[i].1 >= 1
  {
    if units == [] then Decimal(bytes) + " " + "B"
    else
      var (name, multiplier) := units[0];
      if bytes >= multiplier && bytes % multiplier == 0 then Decimal(bytes / multiplier) + " " + name
      else FormatWith(bytes, units[1..])
  }

  function FormatSize(bytes: u64): string {
    FormatWith(bytes, UNITS)
  }

  /** A number, a space and a unit are read back as their product. */
  lemma PrintedSizeReads(n: nat, name: string, multiplier: u64)
    requires multiplier >= 1 && n * multiplier <= MAX_U64
    requires name != "" && Trimmed(name) && SizeUnit(Lower(name)) == Some(multiplier)
    ensures ParseSize(Decimal(n) + " " + name) == Ok(n * multiplier)
  {
    var digits, unit := Decimal(n), " " + name;
    var text := Decimal(n) + " " + name;
    assert text == digits + unit;
    DigitsAreSplitOff(digits, unit);
    TrimmedText(digits, name);
    SpaceIsTrimmed(name);
    NoSign(digits);
    Factor(n, multiplier);
  }

  lemma TrimmedText(digits: string, name: string)
    requires digits != "" && AllDigits(digits) && name != "" && Trimmed(name)
    ensures Trim(digits + " " + name) == digits + " " + name
  {
    var text := digits + " " + name;
    assert IsDigit(text[0]) && text[|text| - 1] == name[|name| - 1];
    TrimmedIsFixed(text);
  }

  lemma SpaceIsTrimmed(name: string)
    requires name != "" && Trimmed(name)
    ensures Trim(" " + name) == name
  {
    assert (" " + name)[1..] == name;
    TrimmedIsFixed(name);
  }

  /** The name is one that `parse_size` reads as this multiplier. */
  predicate IsKnown(entry: (string, u64)) {
    entry.0 != "" && Trimmed(entry.0) && entry.1 >= 1 && SizeUnit(Lower(entry.0)) == Some(entry.1)
  }

  lemma TebibytesAreKnown()
    ensures IsKnown(("TiB", 0x100_0000_0000))
  {
    assert Lower("TiB") == "tib";
  }

  lemma GibibytesAreKnown()
    ensures IsKnown(("GiB", 0x4000_0000))
  {
    assert Lower("GiB") == "gib";
  }

  lemma MebibytesAreKnown()
    ensures IsKnown(("MiB", 0x10_0000))
  {
    assert Lower("MiB") == "mib";
  }

  lemma KibibytesAreKnown()
    ensures IsKnown(("KiB", 0x400))
  {
    assert Lower("KiB") == "kib";
  }

  lemma UnitsAreKnown(units: seq<(string, u64)>)
    requires units == UNITS
    ensures forall i :: 0 <= i < |units| ==> units[i].1 >= 1 && IsKnown(units[i])
  {
    TebibytesAreKnown();
    GibibytesAreKnown();
    MebibytesAreKnown();
    KibibytesAreKnown();
    assert units[0] == ("TiB", 0x100_0000_0000) && units[1] == ("GiB", 0x4000_0000);
    assert units[2] == ("MiB", 0x10_0000) && units[3] == ("KiB", 0x400);
  }

  lemma ExactQuotient(n: nat, m: nat)
    requires m >= 1 && n % m == 0
    ensures n / m * m == n
  {
  }

  lemma {:induction false} FormatWithRoundTrips(n: u64, units: seq<(string, u64)>)
    requires forall i :: 0 <= i < |units| ==> units[i].1 >= 1 && IsKnown(units[i])
    ensures ParseSize(FormatWith(n, units)) == Ok(n)
  {
    if units == [] {
      assert Lower("B") == "b";
      PrintedSizeReads(n, "B", 1);
    } else {
      var (name, multiplier) := units[0];
      assert IsKnown(units[0]);
      if n >= multiplier && n % multiplier == 0 {
        ExactQuotient(n, multiplier);
        PrintedSizeReads(n / multiplier, name, multiplier);
      } else {
        FormatWithRoundTrips(n, units[1..]);
      }
    }
  }

  /** Every size that is printed reads back as itself. */
  lemma FormatRoundTrips(n: u64)
    ensures ParseSize(FormatSize(n)) == Ok(n)
  {
    UnitsAreKnown(UNITS);
    FormatWithRoundTrips(n, UNITS);
  }
}
