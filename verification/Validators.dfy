/** Validator comparison and `If-Range` (sections 8.8.3.2 and 13.1.5 of RFC 9110). */
module Validators {
  import opened Core
  import opened Meta

  datatype Validators = Validators(etag: Option<Str>, lastModified: Option<Str>)

  /** The bytes of `W/`. */
  const WEAK: Str := [0x57, 0x2F]

  predicate IsWeak(etag: Str) {
    WEAK <= etag
  }

  /** Strong comparison: neither tag is weak and the tags are the same bytes. */
  predicate StrongEq(a: Str, b: Str) {
    !IsWeak(a) && !IsWeak(b) && a == b
  }

  /** An entity tag decides when both sides have one; otherwise the dates do. */
  predicate Matches(a: Validators, b: Validators) {
    match (a.etag, b.etag)
    case (Some(x), Some(y)) => StrongEq(x, y)
    case (Some(_), None) => false
    case (None, Some(_)) => false
    case (None, None) =>
      match (a.lastModified, b.lastModified)
      case (Some(x), Some(y)) => x == y
      case (Some(_), None) => false
      case (None, Some(_)) => false
      case (None, None) => true
  }

  /** `trim` on a header value, which holds visible ASCII, spaces and tabs only. */
  function TrimHeader(value: Str): Str {
    if value == [] then value
    else if value[0] == 0x20 || value[0] == 0x09 then TrimHeader(value[1..])
    else if value[|value| - 1] == 0x20 || value[|value| - 1] == 0x09 then TrimHeader(value[..|value| - 1])
    else value
  }

  predicate IfRangeMatches(header: Str, current: Validators) {
    var value := TrimHeader(header);
    if value == [] then false
    else if value[0] == 0x22 || IsWeak(value) then
      current.etag.Some? && StrongEq(value, current.etag.value)
    else
      current.lastModified == Some(value)
  }

  /**
    Matching is symmetric and transitive, so slices accepted one by one against the
    same plan also match each other; a validator set fails to match itself exactly
    when its entity tag is weak.
   */
  lemma MatchesIsPartialEquivalence(a: Validators, b: Validators, c: Validators)
    ensures Matches(a, b) <==> Matches(b, a)
    ensures Matches(a, b) && Matches(b, c) ==> Matches(a, c)
    ensures Matches(a, a) <==> !(a.etag.Some? && IsWeak(a.etag.value))
  {
  }

  /** The one validator a non-empty `If-Range` value names: a tag, or else a date. */
  function Named(value: Str): Validators
    requires value != []
  {
    if value[0] == 0x22 || IsWeak(value) then Validators(Some(value), None) else Validators(None, Some(value))
  }

  /** What the plan has of the kind the value names. */
  function SameKind(value: Str, current: Validators): Validators
    requires value != []
  {
    if Named(value).etag.Some? then Validators(current.etag, None) else Validators(None, current.lastModified)
  }

  /**
    `If-Range` holds if and only if the check that guards slices accepts the one validator
    the client names against the plan's of the same kind; so a weak tag never holds.
   */
  lemma IfRangeIsTheSliceCheck(header: Str, current: Validators)
    ensures var value := TrimHeader(header);
            IfRangeMatches(header, current) <==> value != [] && Matches(Named(value), SameKind(value, current))
    ensures IsWeak(TrimHeader(header)) ==> !IfRangeMatches(header, current)
  {
  }
}
