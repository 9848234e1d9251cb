/** Little-endian integers, length-prefixed bytes, UTF-8 and a cursor over a byte string. */
module Bytes {
  import opened Core

  // ------------------------------------------------------------ little endian

  function Pow256(width: nat): nat {
    if width == 0 then 1 else 256 * Pow256(width - 1)
  }

  /** `to_le_bytes`. */
  function Le(x: nat, width: nat): (bytes: seq<byte>)
    ensures |bytes| == width
  {
    if width == 0 then [] else [x % 256] + Le(x / 256, width - 1)
  }

  /** `from_le_bytes`. */
  function FromLe(bytes: seq<byte>): (x: nat)
    ensures x < Pow256(|bytes|)
  {
    if bytes == [] then 0 else bytes[0] + 256 * FromLe(bytes[1..])
  }

  lemma {:induction false} FromLeInvertsLe(x: nat, width: nat)
    requires x < Pow256(width)
    ensures FromLe(Le(x, width)) == x
  {
    if width > 0 {
      FromLeInvertsLe(x / 256, width - 1);
      assert Le(x, width)[1..] == Le(x / 256, width - 1);
    }
  }

  lemma {:induction false} LeInvertsFromLe(bytes: seq<byte>)
    ensures Le(FromLe(bytes), |bytes|) == bytes
  {
    if bytes != [] {
      LeInvertsFromLe(bytes[1..]);
      assert bytes == [bytes[0]] + bytes[1..];
    }
  }

  lemma Widths()
    ensures Pow256(1) == 256 && Pow256(4) == MAX_U32 + 1 && Pow256(8) == MAX_U64 + 1
  {
    assert Pow256(2) == 0x1_0000 && Pow256(3) == 0x100_0000 && Pow256(4) == 0x1_0000_0000;
    assert Pow256(6) == 0x1_0000_0000_0000;
  }

  // ------------------------------------------------------------------- UTF-8

  predicate Continues(b: byte) { 0x80 <= b <= 0xBF }

  /** The length of the UTF-8 sequence at the front, or 0 if there is none (section 4 of RFC 3629). */
  function Utf8Head(s: seq<byte>): (n: nat)
    requires s != []
    ensures n <= |s|
  {
    if s[0] <= 0x7F then 1
    else if 0xC2 <= s[0] <= 0xDF && |s| >= 2 && Continues(s[1]) then 2
    else if |s| >= 3 && ThreeByteLead(s[0], s[1]) && Continues(s[2]) then 3
    else if |s| >= 4 && FourByteLead(s[0], s[1]) && Continues(s[2]) && Continues(s[3]) then 4
    else 0
  }

  predicate ThreeByteLead(a: byte, b: byte) {
    || (a == 0xE0 && 0xA0 <= b <= 0xBF)
    || ((0xE1 <= a <= 0xEC || 0xEE <= a <= 0xEF) && Continues(b))
    || (a == 0xED && 0x80 <= b <= 0x9F)
  }

  predicate FourByteLead(a: byte, b: byte) {
    || (a == 0xF0 && 0x90 <= b <= 0xBF)
    || (0xF1 <= a <= 0xF3 && Continues(b))
    || (a == 0xF4 && 0x80 <= b <= 0x8F)
  }

  /** `String::from_utf8` accepts the bytes. */
  predicate Utf8(s: seq<byte>) {
    s == [] || (Utf8Head(s) > 0 && Utf8(s[Utf8Head(s)..]))
  }

  // ----------------------------------------------------------------- parsing

  /** What a parser made of the front of its input, and what it left. */
  datatype Parsed<+T, +E> = Got(value: T, rest: seq<byte>) | Cut(error: E) {
    predicate IsFailure() { Cut? }

    function PropagateFailure<U>(): Parsed<U, E>
      requires Cut?
    {
      Cut(error)
    }

    function Extract(): (T, seq<byte>)
      requires Got?
    {
      (value, rest)
    }
  }

  function Take<E>(b: seq<byte>, n: nat, e: E): Parsed<seq<byte>, E> {
    if n <= |b| then Got(b[..n], b[n..]) else Cut(e)
  }

  function TakeU8<E>(b: seq<byte>, e: E): Parsed<byte, E> {
    var (x, rest) :- Take(b, 1, e);
    Got(x[0], rest)
  }

  function TakeU32<E>(b: seq<byte>, e: E): Parsed<u32, E> {
    var (x, rest) :- Take(b, 4, e);
    Widths();
    Got(FromLe(x), rest)
  }

  function TakeU64<E>(b: seq<byte>, e: E): Parsed<u64, E> {
    var (x, rest) :- Take(b, 8, e);
    Widths();
    Got(FromLe(x), rest)
  }

  lemma TakeGets<E>(x: seq<byte>, rest: seq<byte>, e: E)
    ensures Take(x + rest, |x|, e) == Got(x, rest)
  {
  }

  lemma TakeU8Gets<E>(x: byte, rest: seq<byte>, e: E)
    ensures TakeU8([x] + rest, e) == Got(x, rest)
  {
    TakeGets([x], rest, e);
  }

  lemma TakeU32Gets<E>(x: u32, rest: seq<byte>, e: E)
    ensures TakeU32(Le(x, 4) + rest, e) == Got(x, rest)
  {
    TakeGets(Le(x, 4), rest, e);
    Widths();
    FromLeInvertsLe(x, 4);
  }

  lemma TakeU64Gets<E>(x: u64, rest: seq<byte>, e: E)
    ensures TakeU64(Le(x, 8) + rest, e) == Got(x, rest)
  {
    TakeGets(Le(x, 8), rest, e);
    Widths();
    FromLeInvertsLe(x, 8);
  }

  /** More input after the end changes nothing but what is left. */
  lemma TakeExtends<E>(b: seq<byte>, n: nat, e: E, more: seq<byte>)
    requires Take(b, n, e).Got?
    ensures Take(b + more, n, e) == Got(Take(b, n, e).value, Take(b, n, e).rest + more)
  {
    assert (b + more)[..n] == b[..n] && (b + more)[n..] == b[n..] + more;
  }

  /** What was taken, written again, is what was there. */
  lemma TakeIsExact<E>(b: seq<byte>, n: nat, e: E)
    requires Take(b, n, e).Got?
    ensures b == Take(b, n, e).value + Take(b, n, e).rest
  {
  }

  lemma TakeU32IsExact<E>(b: seq<byte>, e: E)
    requires TakeU32(b, e).Got?
    ensures b == Le(TakeU32(b, e).value, 4) + TakeU32(b, e).rest
  {
    TakeIsExact(b, 4, e);
    LeInvertsFromLe(b[..4]);
  }

  lemma TakeU64IsExact<E>(b: seq<byte>, e: E)
    requires TakeU64(b, e).Got?
    ensures b == Le(TakeU64(b, e).value, 8) + TakeU64(b, e).rest
  {
    TakeIsExact(b, 8, e);
    LeInvertsFromLe(b[..8]);
  }

  lemma Assoc(a: seq<byte>, b: seq<byte>, c: seq<byte>)
    ensures a + (b + c) == a + b + c
  {
  }

  // ------------------------------------------------------------- the cursor

  /** A reader over a byte string; a read that does not fit leaves it where it was. */
  class Cursor {
    const bytes: seq<byte>
    var at: nat

    predicate Valid()
      reads this
    {
      at <= |bytes|
    }

    function Rest(): seq<byte>
      requires Valid()
      reads this
    {
      bytes[at..]
    }

    constructor (bytes: seq<byte>)
      ensures Valid() && Rest() == bytes && this.bytes == bytes
    {
      this.bytes := bytes;
      at := 0;
    }

    method TakeBytes<E>(n: nat, e: E) returns (r: Result<seq<byte>, E>)
      requires Valid()
      modifies this
      ensures Valid()
      ensures match Take(old(Rest()), n, e)
              case Got(x, rest) => r == Ok(x) && Rest() == rest
              case Cut(_) => r == Err(e) && at == old(at)
    {
      var end := at + n;
      if end > |bytes| {
        return Err(e);
      }
      assert bytes[at..end] == Rest()[..n] && bytes[end..] == Rest()[n..];
      r := Ok(bytes[at..end]);
      at := end;
    }

    method U8<E>(e: E) returns (r: Result<byte, E>)
      requires Valid()
      modifies this
      ensures Valid()
      ensures match TakeU8(old(Rest()), e)
              case Got(x, rest) => r == Ok(x) && Rest() == rest
              case Cut(_) => r == Err(e) && at == old(at)
    {
      var x := TakeBytes(1, e);
      r := if x.Ok? then Ok(x.value[0]) else Err(e);
    }

    method U32<E>(e: E) returns (r: Result<u32, E>)
      requires Valid()
      modifies this
      ensures Valid()
      ensures match TakeU32(old(Rest()), e)
              case Got(x, rest) => r == Ok(x) && Rest() == rest
              case Cut(_) => r == Err(e) && at == old(at)
    {
      Widths();
      var x := TakeBytes(4, e);
      r := if x.Ok? then Ok(FromLe(x.value)) else Err(e);
    }

    method U64<E>(e: E) returns (r: Result<u64, E>)
      requires Valid()
      modifies this
      ensures Valid()
      ensures match TakeU64(old(Rest()), e)
              case Got(x, rest) => r == Ok(x) && Rest() == rest
              case Cut(_) => r == Err(e) && at == old(at)
    {
      Widths();
      var x := TakeBytes(8, e);
      r := if x.Ok? then Ok(FromLe(x.value)) else Err(e);
    }
  }
}
