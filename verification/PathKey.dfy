/**
  Cache-key paths: percent-decoding and dot-segment removal, on the bytes of the path.

  Normalising is meant to give one key to every spelling of a path. It does, for all
  spellings that escape every literal percent sign; and its result is itself in normal
  form exactly when it holds nothing left to decode.
 */
module PathKey {
  import opened Core
  import opened Bytes

  const SLASH: byte := 0x2F
  const PERCENT: byte := 0x25
  const DOT: byte := 0x2E
  const QUESTION: byte := 0x3F

  // ------------------------------------------------------------- decoding

  function Hex(b: byte): Option<int> {
    if 0x30 <= b <= 0x39 then Some(b - 0x30)
    else if 0x61 <= b <= 0x66 then Some(b - 0x61 + 10)
    else if 0x41 <= b <= 0x46 then Some(b - 0x41 + 10)
    else None
  }

  /** The input starts with a percent sign and two hexadecimal digits. */
  predicate StartsEscape(b: seq<byte>) {
    |b| > 2 && b[0] == PERCENT && Hex(b[1]).Some? && Hex(b[2]).Some?
  }

  function EscapedByte(b: seq<byte>): byte
    requires StartsEscape(b)
  {
    16 * Hex(b[1]).value + Hex(b[2]).value
  }

  /** The byte at the front, decoded, and how many bytes wrote it. */
  function Front(b: seq<byte>): (byte, nat)
    requires b != []
    ensures 0 < Front(b).1 <= |b|
  {
    if StartsEscape(b) then (EscapedByte(b), 3) else (b[0], 1)
  }

  /** A hexadecimal digit, in either case. */
  function HexDigit(n: int, upper: bool): byte
    requires 0 <= n < 16
  {
    if n < 10 then 0x30 + n else if upper then 0x41 + n - 10 else 0x61 + n - 10
  }

  /** An escaped byte is read back, whatever the case of its digits and whatever follows. */
  lemma EscapesAreRead(b: byte, upperHi: bool, upperLo: bool, rest: seq<byte>)
    ensures Front([PERCENT, HexDigit(b / 16, upperHi), HexDigit(b % 16, upperLo)] + rest) == (b, 3)
  {
    var raw := [PERCENT, HexDigit(b / 16, upperHi), HexDigit(b % 16, upperLo)] + rest;
    assert Hex(raw[1]) == Some(b / 16) && Hex(raw[2]) == Some(b % 16);
    assert 16 * (b / 16) + b % 16 == b;
  }

  function Unescape(b: seq<byte>): seq<byte> {
    if b == [] then [] else [Front(b).0] + Unescape(b[Front(b).1..])
  }

  /** `percent_decode`: what does not decode to UTF-8 stays as written. */
  function Decoded(input: seq<byte>): seq<byte> {
    if PERCENT !in input then input
    else if Utf8(Unescape(input)) then Unescape(input)
    else input
  }

  method PercentDecode(input: seq<byte>) returns (decoded: seq<byte>)
    ensures decoded == Decoded(input)
  {
    if PERCENT !in input {
      return input;
    }
    var out: seq<byte>, i := [], 0;
    while i < |input|
      invariant 0 <= i <= |input|
      invariant Unescape(input) == out + Unescape(input[i..])
    {
      UnescapeOne(input, i, out);
      if input[i] == PERCENT && i + 2 < |input| {
        var hi, lo := Hex(input[i + 1]), Hex(input[i + 2]);
        if hi.Some? && lo.Some? {
          out := out + [16 * hi.value + lo.value];
          i := i + 3;
          continue;
        }
      }
      out := out + [input[i]];
      i := i + 1;
    }
    assert input[i..] == [];
    assert Unescape(input) == out;
    return if Utf8(out) then out else input;
  }

  /** What one turn of the decoding loop adds. */
  lemma UnescapeOne(input: seq<byte>, i: nat, out: seq<byte>)
    requires i < |input| && Unescape(input) == out + Unescape(input[i..])
    ensures var (x, n) := Front(input[i..]);
            i + n <= |input| && Unescape(input) == out + [x] + Unescape(input[i + n..])
  {
    var (x, n) := Front(input[i..]);
    assert input[i..][n..] == input[i + n..];
    Assoc(out, [x], Unescape(input[i + n..]));
  }

  // ------------------------------------------------------------- segments

  function FindByte(b: seq<byte>, x: byte): (k: nat)
    ensures k <= |b| && (k < |b| ==> b[k] == x) && forall j :: 0 <= j < k ==> b[j] != x
  {
    if b == [] || b[0] == x then 0 else 1 + FindByte(b[1..], x)
  }

  /** `split('/')`. */
  function Split(b: seq<byte>): (segments: seq<seq<byte>>)
    ensures segments != []
  {
    var k := FindByte(b, SLASH);
    if k == |b| then [b] else [b[..k]] + Split(b[k + 1..])
  }

  predicate EndsWithSlash(b: seq<byte>) { b != [] && b[|b| - 1] == SLASH }

  /** One segment against the stack of those before it. */
  function Step(stack: seq<seq<byte>>, segment: seq<byte>): seq<seq<byte>> {
    if segment == [] || segment == [DOT] then stack
    else if segment == [DOT, DOT] then (if stack == [] then [] else stack[..|stack| - 1])
    else stack + [segment]
  }

  function Resolve(segments: seq<seq<byte>>): seq<seq<byte>> {
    if segments == [] then [] else Step(Resolve(segments[..|segments| - 1]), segments[|segments| - 1])
  }

  /** Each segment behind a slash. */
  function Joined(stack: seq<seq<byte>>): seq<byte> {
    if stack == [] then [] else [SLASH] + stack[0] + Joined(stack[1..])
  }

  function Render(stack: seq<seq<byte>>, trailing: bool): seq<byte> {
    if stack == [] then [SLASH] else if trailing then Joined(stack) + [SLASH] else Joined(stack)
  }

  /** The normal form of a decoded path. */
  function Normalised(decoded: seq<byte>): seq<byte> {
    Render(Resolve(Split(decoded)), EndsWithSlash(decoded))
  }

  /** The first loop of `normalise_path`: a stack of segments. */
  method ResolveSegments(parts: seq<seq<byte>>) returns (segments: seq<seq<byte>>)
    ensures segments == Resolve(parts)
  {
    segments := [];
    var i := 0;
    while i < |parts|
      invariant 0 <= i <= |parts| && segments == Resolve(parts[..i])
    {
      assert parts[..i + 1][..i] == parts[..i];
      if parts[i] == [DOT, DOT] {
        segments := if segments == [] then [] else segments[..|segments| - 1];
      } else if parts[i] != [] && parts[i] != [DOT] {
        segments := segments + [parts[i]];
      }
      i := i + 1;
    }
    assert parts[..i] == parts;
  }

  /** The second loop: the output, written segment by segment. */
  method WriteSegments(segments: seq<seq<byte>>) returns (out: seq<byte>)
    ensures out == Joined(segments)
  {
    out := [];
    var i := 0;
    while i < |segments|
      invariant 0 <= i <= |segments| && out == Joined(segments[..i])
    {
      JoinedGrows(segments[..i], segments[i]);
      assert segments[..i + 1] == segments[..i] + [segments[i]];
      out := out + [SLASH];
      out := out + segments[i];
      i := i + 1;
    }
    assert segments[..i] == segments;
  }

  /** `normalise_path`. */
  method NormalisePath(path: seq<byte>) returns (out: seq<byte>)
    ensures out == Normalised(Decoded(path))
  {
    var decoded := PercentDecode(path);
    var segments := ResolveSegments(Split(decoded));
    out := WriteSegments(segments);
    if out == [] {
      out := [SLASH];
    } else if EndsWithSlash(decoded) {
      out := out + [SLASH];
    }
  }

  lemma {:induction false} JoinedGrows(stack: seq<seq<byte>>, segment: seq<byte>)
    ensures Joined(stack + [segment]) == Joined(stack) + [SLASH] + segment
  {
    if stack == [] {
      assert (stack + [segment])[1..] == [];
    } else {
      JoinedGrows(stack[1..], segment);
      assert (stack + [segment])[1..] == stack[1..] + [segment];
    }
  }

  // ------------------------------------------------------- the normal form

  /** A segment that stays: not empty, not a dot segment, and with no slash inside. */
  predicate Plain(segment: seq<byte>) {
    segment != [] && segment != [DOT] && segment != [DOT, DOT] && SLASH !in segment
  }

  predicate AllPlain(stack: seq<seq<byte>>) { forall i :: 0 <= i < |stack| ==> Plain(stack[i]) }

  lemma {:induction false} SplitHasNoSlash(b: seq<byte>, i: nat)
    requires i < |Split(b)|
    ensures SLASH !in Split(b)[i]
    decreases |b|
  {
    var k := FindByte(b, SLASH);
    if k < |b| && i > 0 { SplitHasNoSlash(b[k + 1..], i - 1); }
  }

  lemma {:induction false} ResolvedArePlain(segments: seq<seq<byte>>)
    requires forall i :: 0 <= i < |segments| ==> SLASH !in segments[i]
    ensures AllPlain(Resolve(segments))
  {
    if segments != [] { ResolvedArePlain(segments[..|segments| - 1]); }
  }

  lemma NormalisedStack(decoded: seq<byte>)
    ensures AllPlain(Resolve(Split(decoded)))
  {
    forall i | 0 <= i < |Split(decoded)| ensures SLASH !in Split(decoded)[i] { SplitHasNoSlash(decoded, i); }
    ResolvedArePlain(Split(decoded));
  }

  /** Splitting takes the first segment off. */
  lemma SplitFirst(segment: seq<byte>, rest: seq<byte>)
    requires SLASH !in segment
    ensures Split(segment) == [segment]
    ensures Split(segment + [SLASH] + rest) == [segment] + Split(rest)
  {
    var whole := segment + [SLASH] + rest;
    assert forall j :: 0 <= j < |segment| ==> whole[j] == segment[j];
    assert whole[|segment|] == SLASH;
    assert FindByte(whole, SLASH) == |segment|;
    assert whole[..|segment|] == segment && whole[|segment| + 1..] == rest;
  }

  function Tail(trailing: bool): seq<byte> { if trailing then [SLASH] else [] }

  function EmptyIf(trailing: bool): seq<seq<byte>> { if trailing then [[]] else [] }

  lemma {:induction false} SplitOfJoined(segment: seq<byte>, stack: seq<seq<byte>>, trailing: bool)
    requires SLASH !in segment && AllPlain(stack)
    ensures Split(segment + Joined(stack) + Tail(trailing)) == [segment] + stack + EmptyIf(trailing)
    decreases |stack|
  {
    if stack == [] {
      SplitOfLast(segment, trailing);
      assert segment + Joined(stack) == segment;
      assert [segment] + stack == [segment];
    } else {
      SplitOfJoined(stack[0], stack[1..], trailing);
      SplitFirst(segment, stack[0] + Joined(stack[1..]) + Tail(trailing));
      Regroup(segment, stack, trailing);
    }
  }

  lemma Regroup(segment: seq<byte>, stack: seq<seq<byte>>, trailing: bool)
    requires stack != []
    ensures segment + Joined(stack) + Tail(trailing) ==
            segment + [SLASH] + (stack[0] + Joined(stack[1..]) + Tail(trailing))
    ensures [segment] + ([stack[0]] + stack[1..] + EmptyIf(trailing)) == [segment] + stack + EmptyIf(trailing)
  {
    var s, j, tail := stack[0], Joined(stack[1..]), Tail(trailing);
    assert [s] + stack[1..] == stack;
    Shift(segment, [SLASH], s, j, tail);
    Shift([segment], [], [s], stack[1..], EmptyIf(trailing));
    assert [] + [s] == [s] && [segment] + [] == [segment];
  }

  lemma Shift<T>(a: seq<T>, b: seq<T>, c: seq<T>, d: seq<T>, e: seq<T>)
    ensures a + (b + c + d) + e == a + b + (c + d + e)
  {
    assert b + c + d == b + (c + d);
    assert a + (b + (c + d)) == a + b + (c + d);
    assert a + b + (c + d) + e == a + b + (c + d + e);
  }

  lemma SplitOfLast(segment: seq<byte>, trailing: bool)
    requires SLASH !in segment
    ensures Split(segment + Tail(trailing)) == [segment] + EmptyIf(trailing)
  {
    SplitFirst(segment, []);
    SplitFirst([], []);
    assert segment + [SLASH] + [] == segment + [SLASH];
    assert segment + [] == segment;
  }

  /** The segments of a normal form are an empty one, the plain ones, and perhaps an empty one. */
  lemma SplitOfRender(stack: seq<seq<byte>>, trailing: bool)
    requires AllPlain(stack)
    ensures Split(Render(stack, trailing)) == [[]] + stack + EmptyIf(trailing || stack == [])
  {
    if stack == [] {
      SplitOfJoined([], [], true);
    } else {
      SplitOfJoined([], stack, trailing);
      RenderIsJoined(stack, trailing);
    }
  }

  lemma RenderIsJoined(stack: seq<seq<byte>>, trailing: bool)
    requires stack != []
    ensures [] + Joined(stack) + Tail(trailing) == Render(stack, trailing)
  {
    var j := Joined(stack);
    assert [] + j == j && j + [] == j;
  }

  lemma ResolveOne(segments: seq<seq<byte>>, segment: seq<byte>)
    ensures Resolve(segments + [segment]) == Step(Resolve(segments), segment)
  {
    assert (segments + [segment])[..|segments|] == segments;
  }

  lemma {:induction false} ResolveOfPlain(stack: seq<seq<byte>>)
    requires AllPlain(stack)
    ensures Resolve([[]] + stack) == stack
  {
    if stack == [] {
      assert [[]] + stack == [[]];
      ResolveOne([], []);
    } else {
      var n := |stack| - 1;
      ResolveOfPlain(stack[..n]);
      ResolveOne([[]] + stack[..n], stack[n]);
      assert [[]] + stack == [[]] + stack[..n] + [stack[n]];
      assert Plain(stack[n]);
      assert stack[..n] + [stack[n]] == stack;
    }
  }

  lemma ResolveOfRendered(stack: seq<seq<byte>>, trailing: bool)
    requires AllPlain(stack)
    ensures Resolve([[]] + stack + EmptyIf(trailing)) == stack
  {
    ResolveOfPlain(stack);
    if trailing {
      ResolveOne([[]] + stack, []);
    } else {
      assert [[]] + stack + [] == [[]] + stack;
    }
  }

  lemma {:induction false} JoinedEnds(stack: seq<seq<byte>>)
    requires AllPlain(stack) && stack != []
    ensures Joined(stack) != [] && !EndsWithSlash(Joined(stack)) && Joined(stack)[0] == SLASH
  {
    assert Plain(stack[0]);
    if |stack| > 1 { JoinedEnds(stack[1..]); }
  }

  /**
    A normal form starts with a slash, and its segments are plain but for the empty one
    before the first slash and the one after a trailing slash.
   */
  lemma NormalFormIsPlain(decoded: seq<byte>)
    ensures var out := Normalised(decoded);
            && out != [] && out[0] == SLASH
            && var segments := Split(out);
               && |segments| >= 2 && segments[0] == []
               && (forall i :: 0 < i < |segments| - 1 ==> Plain(segments[i]))
               && (segments[|segments| - 1] == [] || Plain(segments[|segments| - 1]))
  {
    var stack, trailing := Resolve(Split(decoded)), EndsWithSlash(decoded);
    NormalisedStack(decoded);
    SplitOfRender(stack, trailing);
    if stack != [] { JoinedEnds(stack); }
  }

  /** Normalising a normal form again changes nothing. */
  lemma NormalisedIsNormal(decoded: seq<byte>)
    ensures Normalised(Normalised(decoded)) == Normalised(decoded)
  {
    NormalisedStack(decoded);
    NormalFormsAreKept(Resolve(Split(decoded)), EndsWithSlash(decoded));
  }

  /** Everything already in normal form is kept, its trailing slash included. */
  lemma NormalFormsAreKept(stack: seq<seq<byte>>, trailing: bool)
    requires AllPlain(stack)
    ensures Normalised(Render(stack, trailing)) == Render(stack, trailing)
  {
    SplitOfRender(stack, trailing);
    ResolveOfRendered(stack, trailing || stack == []);
    if stack != [] { JoinedEnds(stack); }
  }

  lemma {:induction false} ResolveThen(front: seq<seq<byte>>, back: seq<seq<byte>>, other: seq<seq<byte>>)
    requires Resolve(front) == Resolve(other)
    ensures Resolve(front + back) == Resolve(other + back)
    decreases |back|
  {
    if back == [] {
      assert front + back == front && other + back == other;
    } else {
      var n := |back| - 1;
      ResolveThen(front, back[..n], other);
      assert front + back == front + back[..n] + [back[n]] && other + back == other + back[..n] + [back[n]];
      ResolveOne(front + back[..n], back[n]);
      ResolveOne(other + back[..n], back[n]);
    }
  }

  /**
    The laws that define dot-segment removal: anywhere in a path an empty or single-dot
    segment goes, a double dot goes together with the plain segment before it, and a
    double dot at the root goes alone.
   */
  lemma DotSegmentLaws(front: seq<seq<byte>>, x: seq<byte>, back: seq<seq<byte>>)
    requires Plain(x)
    ensures Resolve(front + [[]] + back) == Resolve(front + back)
    ensures Resolve(front + [[DOT]] + back) == Resolve(front + back)
    ensures Resolve(front + [x, [DOT, DOT]] + back) == Resolve(front + back)
    ensures Resolve([[DOT, DOT]] + back) == Resolve(back)
  {
    ResolveOne(front, []);
    ResolveThen(front + [[]], back, front);
    ResolveOne(front, [DOT]);
    ResolveThen(front + [[DOT]], back, front);
    ResolveOne(front, x);
    ResolveOne(front + [x], [DOT, DOT]);
    assert front + [x, [DOT, DOT]] == front + [x] + [[DOT, DOT]];
    ResolveThen(front + [x, [DOT, DOT]], back, front);
    ResolveOne([], [DOT, DOT]);
    assert [] + [[DOT, DOT]] == [[DOT, DOT]] && [] + back == back;
    ResolveThen([[DOT, DOT]], back, []);
  }

  // ---------------------------------------------------- when it is a fixed point

  lemma {:induction false} UnescapeShrinks(b: seq<byte>)
    ensures |Unescape(b)| <= |b|
    ensures |Unescape(b)| == |b| ==> Unescape(b) == b
  {
    if b != [] {
      if StartsEscape(b) { UnescapeShrinks(b[3..]); } else { UnescapeShrinks(b[1..]); }
    }
  }

  /** The bytes of some segments, each with its slash, the empty ones left out. */
  function Weight(segments: seq<seq<byte>>): nat {
    if segments == [] then 0
    else
      var last := segments[|segments| - 1];
      Weight(segments[..|segments| - 1]) + if last == [] then 0 else 1 + |last|
  }

  function Empties(segments: seq<seq<byte>>): nat {
    if segments == [] then 0
    else Empties(segments[..|segments| - 1]) + if segments[|segments| - 1] == [] then 1 else 0
  }

  lemma {:induction false} ResolveWeighsLess(segments: seq<seq<byte>>)
    ensures Weight(Resolve(segments)) <= Weight(segments)
  {
    if segments != [] {
      var n := |segments| - 1;
      ResolveWeighsLess(segments[..n]);
      var stack := Resolve(segments[..n]);
      assert (stack + [segments[n]])[..|stack|] == stack;
    }
  }

  lemma {:induction false} JoinedWeighs(stack: seq<seq<byte>>)
    requires AllPlain(stack)
    ensures |Joined(stack)| == Weight(stack)
  {
    if stack != [] {
      var n := |stack| - 1;
      JoinedWeighs(stack[..n]);
      JoinedGrows(stack[..n], stack[n]);
      assert stack[..n] + [stack[n]] == stack;
      assert Plain(stack[n]);
    }
  }

  lemma {:induction false} CountsPrepend(segment: seq<byte>, segments: seq<seq<byte>>)
    ensures Weight([segment] + segments) == Weight(segments) + if segment == [] then 0 else 1 + |segment|
    ensures Empties([segment] + segments) == Empties(segments) + if segment == [] then 1 else 0
    decreases |segments|
  {
    var all := [segment] + segments;
    if segments != [] {
      var n := |segments| - 1;
      CountsPrepend(segment, segments[..n]);
      assert all[..|all| - 1] == [segment] + segments[..n];
    } else {
      assert all == [segment] && all[..0] == [];
    }
  }

  /** Every byte is in a segment or is a slash between two. */
  lemma {:induction false} SplitCounts(b: seq<byte>)
    ensures Weight(Split(b)) + Empties(Split(b)) == |b| + 1
    decreases |b|
  {
    var k := FindByte(b, SLASH);
    if k == |b| {
      CountsPrepend(b, []);
      assert [b] + [] == [b];
    } else {
      SplitCounts(b[k + 1..]);
      CountsPrepend(b[..k], Split(b[k + 1..]));
    }
  }

  lemma {:induction false} SplitEnds(b: seq<byte>)
    requires EndsWithSlash(b)
    ensures Empties(Split(b)) >= 1
    decreases |b|
  {
    var k := FindByte(b, SLASH);
    assert k < |b|;
    CountsPrepend(b[..k], Split(b[k + 1..]));
    if k + 1 < |b| {
      SplitEnds(b[k + 1..]);
    } else {
      assert b[k + 1..] == [];
      var none: seq<seq<byte>> := [];
      CountsPrepend([], none);
      assert Split(b[k + 1..]) == [[]] + none;
    }
  }

  /** An absolute path does not get longer. */
  lemma NormalisedIsNoLonger(d: seq<byte>)
    requires d != [] && d[0] == SLASH
    ensures |Normalised(d)| <= |d|
  {
    var stack := Resolve(Split(d));
    NormalisedStack(d);
    JoinedWeighs(stack);
    ResolveWeighsLess(Split(d));
    AbsoluteWeight(d);
  }

  lemma AbsoluteWeight(d: seq<byte>)
    requires d != [] && d[0] == SLASH
    ensures Weight(Split(d)) + (if EndsWithSlash(d) && |d| > 1 then 1 else 0) <= |d|
  {
    SplitCounts(d);
    assert d[..0] == [];
    CountsPrepend([], Split(d[1..]));
    if EndsWithSlash(d) && |d| > 1 {
      SplitEnds(d[1..]);
    }
  }

  lemma DecodedStartsWithSlash(b: seq<byte>)
    requires b != [] && b[0] == SLASH
    ensures Decoded(b) != [] && Decoded(b)[0] == SLASH
  {
  }

  /** A cache-key path is its own key if and only if nothing in it is left to decode. */
  lemma KeyIsFixedIffNothingDecodes(path: seq<byte>)
    ensures var key := Normalised(Decoded(path));
            Normalised(Decoded(key)) == key <==> Decoded(key) == key
    ensures var key := Normalised(Decoded(path)); PERCENT !in key ==> Decoded(key) == key
  {
    var key := Normalised(Decoded(path));
    NormalisedIsNormal(Decoded(path));
    NormalFormIsPlain(Decoded(path));
    if Decoded(key) != key {
      UnescapeShrinks(key);
      DecodedStartsWithSlash(key);
      NormalisedIsNoLonger(Decoded(key));
    }
  }

  /** The other case is real: an escaped escape decodes to an escape. */
  lemma DoubleEscapesAreNotFixed()
    ensures var key := Normalised(Decoded([SLASH, PERCENT, 0x32, 0x35, 0x34, 0x31]));
            key == [SLASH, PERCENT, 0x34, 0x31] && Normalised(Decoded(key)) == [SLASH, 0x41]
  {
    var path: seq<byte> := [SLASH, PERCENT, 0x32, 0x35, 0x34, 0x31];
    var key, a: seq<byte> := [SLASH, PERCENT, 0x34, 0x31], [SLASH, 0x41];
    assert path[1..][3..] == [0x34, 0x31] && key[1..][1..] == [0x34, 0x31];
    SpellsPlain([0x34, 0x31]);
    assert Spells(path[1..], key[1..]);
    DecodesTo(path, key);
    assert key[1..][3..] == [] && a[1..][1..] == [];
    assert Spells(key[1..], a[1..]);
    DecodesTo(key, a);
    OneSegment([PERCENT, 0x34, 0x31]);
    OneSegment([0x41]);
  }

  lemma {:induction false} SpellsPlain(text: seq<byte>)
    requires PERCENT !in text
    ensures Spells(text, text)
  {
    if text != [] { SpellsPlain(text[1..]); }
  }

  lemma DecodesTo(path: seq<byte>, text: seq<byte>)
    requires Spells(path, text) && Ascii(text)
    ensures Decoded(path) == text
  {
    AsciiIsUtf8(text);
    SpellingDecodes(path, text);
  }

  lemma OneSegment(segment: seq<byte>)
    requires Plain(segment)
    ensures Normalised([SLASH] + segment) == [SLASH] + segment
  {
    var stack := [segment];
    assert stack[1..] == [];
    assert Joined(stack) == [SLASH] + segment + Joined([]);
    assert Render(stack, false) == [SLASH] + segment;
    SplitOfRender(stack, false);
    ResolveOfRendered(stack, false);
    JoinedEnds(stack);
  }

  // ------------------------------------------------------------- spellings

  /** `raw` writes `text` with some bytes escaped, every percent sign among them. */
  predicate Spells(raw: seq<byte>, text: seq<byte>)
    decreases |raw|
  {
    if text == [] then raw == []
    else
      || (raw != [] && raw[0] != PERCENT && raw[0] == text[0] && Spells(raw[1..], text[1..]))
      || (StartsEscape(raw) && EscapedByte(raw) == text[0] && Spells(raw[3..], text[1..]))
  }

  predicate Ascii(text: seq<byte>) { forall i :: 0 <= i < |text| ==> text[i] < 0x80 }

  lemma {:induction false} AsciiIsUtf8(text: seq<byte>)
    requires Ascii(text)
    ensures Utf8(text)
  {
    if text != [] { AsciiIsUtf8(text[1..]); }
  }

  lemma {:induction false} SpellingUnescapes(raw: seq<byte>, text: seq<byte>)
    requires Spells(raw, text)
    ensures Unescape(raw) == text
    ensures PERCENT !in raw ==> raw == text
    decreases |raw|
  {
    if text != [] {
      if raw[0] != PERCENT {
        SpellingUnescapes(raw[1..], text[1..]);
        assert raw == [raw[0]] + raw[1..];
      } else {
        SpellingUnescapes(raw[3..], text[1..]);
      }
      assert text == [text[0]] + text[1..];
    }
  }

  lemma SpellingDecodes(raw: seq<byte>, text: seq<byte>)
    requires Spells(raw, text) && Utf8(text)
    ensures Decoded(raw) == text
  {
    SpellingUnescapes(raw, text);
  }

  // ------------------------------------------------------------- the key

  /** `split_target`. */
  function SplitTarget(target: seq<byte>): (seq<byte>, Option<seq<byte>>) {
    var k := FindByte(target, QUESTION);
    if k == |target| then (target, None) else (target[..k], Some(target[k + 1..]))
  }

  /** `normalise`: the host part if the rule includes it, the path, the query if the rule keeps it. */
  function CacheKey(hostPart: seq<byte>, target: seq<byte>, keepQuery: bool): seq<byte> {
    var (path, query) := SplitTarget(target);
    hostPart + Normalised(Decoded(path)) + if keepQuery && query.Some? then [QUESTION] + query.value else []
  }

  lemma SplitsAtQuestion(path: seq<byte>, query: Option<seq<byte>>)
    requires QUESTION !in path
    ensures SplitTarget(path + if query.Some? then [QUESTION] + query.value else []) == (path, query)
  {
    var target := path + if query.Some? then [QUESTION] + query.value else [];
    assert forall j :: 0 <= j < |path| ==> target[j] == path[j];
    if query.Some? {
      assert target[|path|] == QUESTION;
      assert target[..|path|] == path && target[|path| + 1..] == query.value;
    } else {
      assert target == path;
    }
  }

  /** Any two spellings of one path, with the same query, get the same key. */
  lemma SpellingsShareAKey(raw1: seq<byte>, raw2: seq<byte>, text: seq<byte>, query: Option<seq<byte>>,
                           hostPart: seq<byte>, keepQuery: bool)
    requires Utf8(text) && Spells(raw1, text) && Spells(raw2, text)
    requires QUESTION !in raw1 && QUESTION !in raw2
    ensures var tail := if query.Some? then [QUESTION] + query.value else [];
            CacheKey(hostPart, raw1 + tail, keepQuery) == CacheKey(hostPart, raw2 + tail, keepQuery)
  {
    SpellingDecodes(raw1, text);
    SpellingDecodes(raw2, text);
    SplitsAtQuestion(raw1, query);
    SplitsAtQuestion(raw2, query);
  }
}
