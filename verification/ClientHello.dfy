/**
  The server-name reader of the TLS pass-through: which byte strings yield which host.

  The answer is exact. A record yields a host if and only if it can be written as a
  handshake record whose ClientHello carries, after any number of other extensions, a
  server_name extension that lists, after any number of other names, that host
  (section 4.1.2 of RFC 8446, section 3 of RFC 6066). Nothing after the part that was
  needed is looked at.
 */
module ClientHello {
  import opened Core
  import opened Bytes

  const RECORD_HANDSHAKE: byte := 0x16
  const CLIENT_HELLO: byte := 0x01
  const SERVER_NAME: u16 := 0x0000
  const HOST_NAME: byte := 0x00

  type Field<+T> = Parsed<T, ()>

  // ------------------------------------------------------------------ fields

  function Be16(x: u16): seq<byte> { [x / 256, x % 256] }

  function FromBe16(hi: byte, lo: byte): u16 { (hi as int) * 256 + (lo as int) }

  function TakeU16(b: seq<byte>): Field<u16> {
    var (x, rest) :- Take(b, 2, ());
    Got(FromBe16(x[0], x[1]), rest)
  }

  function TakeVec8(b: seq<byte>): Field<seq<byte>> {
    var (len, rest) :- TakeU8(b, ());
    Take(rest, len, ())
  }

  function TakeVec16(b: seq<byte>): Field<seq<byte>> {
    var (len, rest) :- TakeU16(b);
    Take(rest, len, ())
  }

  function Vec8(x: seq<byte>): seq<byte>
    requires |x| <= 255
  {
    [|x|] + x
  }

  function Vec16(x: seq<byte>): seq<byte>
    requires |x| <= MAX_U16
  {
    Be16(|x|) + x
  }

  lemma TakeU16Exact(b: seq<byte>, x: u16, rest: seq<byte>)
    ensures TakeU16(b) == Got(x, rest) <==> b == Be16(x) + rest
  {
    if b == Be16(x) + rest {
      assert b[..2] == Be16(x) && b[2..] == rest;
    }
    if TakeU16(b) == Got(x, rest) {
      assert b == b[..2] + b[2..];
      SplitsBytes(b[0], b[1]);
    }
  }

  lemma TakeExact(b: seq<byte>, x: seq<byte>, rest: seq<byte>)
    ensures Take(b, |x|, ()) == Got(x, rest) <==> b == x + rest
  {
  }

  lemma TakeVec8Exact(b: seq<byte>, x: seq<byte>, rest: seq<byte>)
    ensures TakeVec8(b) == Got(x, rest) <==> |x| <= 255 && b == Vec8(x) + rest
  {
    if |x| <= 255 && b == Vec8(x) + rest {
      assert b[..1] == [|x|] && b[1..] == x + rest;
    }
    if TakeVec8(b) == Got(x, rest) {
      assert b == [b[0]] + b[1..] && b[1..] == x + rest;
    }
  }

  lemma TakeVec16Exact(b: seq<byte>, x: seq<byte>, rest: seq<byte>)
    ensures TakeVec16(b) == Got(x, rest) <==> |x| <= MAX_U16 && b == Vec16(x) + rest
  {
    if |x| <= MAX_U16 && b == Vec16(x) + rest {
      Assoc(Be16(|x|), x, rest);
      TakeU16Exact(b, |x|, x + rest);
    }
    if TakeVec16(b) == Got(x, rest) {
      TakeU16Exact(b, |x|, TakeU16(b).rest);
      Assoc(Be16(|x|), x, rest);
    }
  }

  // --------------------------------------------------------------- the names

  datatype Name = Name(kind: byte, text: seq<byte>)

  /** A name in the list of a server_name extension, followed by `rest`. */
  function NameBytes(name: Name, rest: seq<byte>): seq<byte>
    requires |name.text| <= MAX_U16
  {
    [name.kind] + (Vec16(name.text) + rest)
  }

  function TakeName(b: seq<byte>): Field<Name> {
    var (kind, b1) :- TakeU8(b, ());
    var (text, b2) :- TakeVec16(b1);
    Got(Name(kind, text), b2)
  }

  lemma TakeNameExact(b: seq<byte>, name: Name, rest: seq<byte>)
    ensures TakeName(b) == Got(name, rest) <==> |name.text| <= MAX_U16 && b == NameBytes(name, rest)
  {
    if |name.text| <= MAX_U16 && b == NameBytes(name, rest) {
      assert b[..1] == [name.kind] && b[1..] == Vec16(name.text) + rest;
      TakeVec16Exact(b[1..], name.text, rest);
    }
    if TakeName(b) == Got(name, rest) {
      TakeVec16Exact(b[1..], name.text, rest);
      assert b == [b[0]] + b[1..];
    }
  }

  /** The first host name of a list; a list that breaks off before one has none. */
  function FindHost(list: seq<byte>): Option<seq<byte>>
    decreases |list|
  {
    match TakeName(list)
    case Cut(_) => None
    case Got(name, rest) => if name.kind == HOST_NAME then Some(name.text) else FindHost(rest)
  }

  predicate AreOtherNames(names: seq<Name>) {
    forall i :: 0 <= i < |names| ==> names[i].kind != HOST_NAME && |names[i].text| <= MAX_U16
  }

  function NamesBytes(names: seq<Name>, rest: seq<byte>): seq<byte>
    requires AreOtherNames(names)
  {
    if names == [] then rest else NameBytes(names[0], NamesBytes(names[1..], rest))
  }

  /** The list is other names, then the host, then anything. */
  predicate ListsHost(list: seq<byte>, host: seq<byte>, names: seq<Name>, junk: seq<byte>) {
    && AreOtherNames(names) && |host| <= MAX_U16
    && list == NamesBytes(names, NameBytes(Name(HOST_NAME, host), junk))
  }

  lemma {:induction false} ListedHostIsFound(list: seq<byte>, host: seq<byte>, names: seq<Name>, junk: seq<byte>)
    requires ListsHost(list, host, names, junk)
    ensures FindHost(list) == Some(host)
    decreases |names|
  {
    if names == [] {
      TakeNameExact(list, Name(HOST_NAME, host), junk);
    } else {
      var rest := NamesBytes(names[1..], NameBytes(Name(HOST_NAME, host), junk));
      TakeNameExact(list, names[0], rest);
      ListedHostIsFound(rest, host, names[1..], junk);
    }
  }

  lemma {:induction false} FoundHostIsListed(list: seq<byte>) returns (names: seq<Name>, junk: seq<byte>)
    requires FindHost(list).Some?
    ensures ListsHost(list, FindHost(list).value, names, junk)
    decreases |list|
  {
    var name, rest := TakeName(list).value, TakeName(list).rest;
    TakeNameExact(list, name, rest);
    if name.kind == HOST_NAME {
      names, junk := [], rest;
    } else {
      names, junk := FoundHostIsListed(rest);
      assert ([name] + names)[1..] == names;
      names := [name] + names;
    }
  }

  // ---------------------------------------------------------- the extensions

  datatype Extension = Extension(kind: u16, data: seq<byte>)

  function ExtensionBytes(e: Extension, rest: seq<byte>): seq<byte>
    requires |e.data| <= MAX_U16
  {
    Be16(e.kind) + (Vec16(e.data) + rest)
  }

  function TakeExtension(b: seq<byte>): Field<Extension> {
    var (kind, b1) :- TakeU16(b);
    var (data, b2) :- TakeVec16(b1);
    Got(Extension(kind, data), b2)
  }

  lemma TakeExtensionExact(b: seq<byte>, e: Extension, rest: seq<byte>)
    ensures TakeExtension(b) == Got(e, rest) <==> |e.data| <= MAX_U16 && b == ExtensionBytes(e, rest)
  {
    if |e.data| <= MAX_U16 && b == ExtensionBytes(e, rest) {
      TakeU16Exact(b, e.kind, Vec16(e.data) + rest);
      TakeVec16Exact(Vec16(e.data) + rest, e.data, rest);
    }
    if TakeExtension(b) == Got(e, rest) {
      TakeU16Exact(b, e.kind, TakeU16(b).rest);
      TakeVec16Exact(TakeU16(b).rest, e.data, rest);
    }
  }

  /** The data of the first server_name extension. */
  function FindServerName(extensions: seq<byte>): Option<seq<byte>>
    decreases |extensions|
  {
    match TakeExtension(extensions)
    case Cut(_) => None
    case Got(e, rest) => if e.kind == SERVER_NAME then Some(e.data) else FindServerName(rest)
  }

  predicate AreOtherExtensions(es: seq<Extension>) {
    forall i :: 0 <= i < |es| ==> es[i].kind != SERVER_NAME && |es[i].data| <= MAX_U16
  }

  function ExtensionsBytes(es: seq<Extension>, rest: seq<byte>): seq<byte>
    requires AreOtherExtensions(es)
  {
    if es == [] then rest else ExtensionBytes(es[0], ExtensionsBytes(es[1..], rest))
  }

  predicate CarriesServerName(extensions: seq<byte>, data: seq<byte>, others: seq<Extension>, junk: seq<byte>) {
    && AreOtherExtensions(others) && |data| <= MAX_U16
    && extensions == ExtensionsBytes(others, ExtensionBytes(Extension(SERVER_NAME, data), junk))
  }

  lemma {:induction false} CarriedNameIsFound(extensions: seq<byte>, data: seq<byte>, others: seq<Extension>,
                                              junk: seq<byte>)
    requires CarriesServerName(extensions, data, others, junk)
    ensures FindServerName(extensions) == Some(data)
    decreases |others|
  {
    if others == [] {
      TakeExtensionExact(extensions, Extension(SERVER_NAME, data), junk);
    } else {
      var rest := ExtensionsBytes(others[1..], ExtensionBytes(Extension(SERVER_NAME, data), junk));
      TakeExtensionExact(extensions, others[0], rest);
      CarriedNameIsFound(rest, data, others[1..], junk);
    }
  }

  lemma {:induction false} FoundNameIsCarried(extensions: seq<byte>) returns (others: seq<Extension>, junk: seq<byte>)
    requires FindServerName(extensions).Some?
    ensures CarriesServerName(extensions, FindServerName(extensions).value, others, junk)
    decreases |extensions|
  {
    var e, rest := TakeExtension(extensions).value, TakeExtension(extensions).rest;
    TakeExtensionExact(extensions, e, rest);
    if e.kind == SERVER_NAME {
      others, junk := [], rest;
    } else {
      others, junk := FoundNameIsCarried(rest);
      assert ([e] + others)[1..] == others;
      others := [e] + others;
    }
  }

  // --------------------------------------------------------------- the hello

  /** The parts of a ClientHello that are stepped over on the way to its extensions. */
  datatype Prelude = Prelude(length: seq<byte>, version: u16, random: seq<byte>,
                             session: seq<byte>, ciphers: seq<byte>, compression: seq<byte>)
  {
    predicate Valid() {
      |length| == 3 && |random| == 32 && |session| <= 255 && |ciphers| <= MAX_U16 && |compression| <= 255
    }
  }

  function VectorsBytes(p: Prelude, rest: seq<byte>): seq<byte>
    requires p.Valid()
  {
    Vec8(p.session) + (Vec16(p.ciphers) + (Vec8(p.compression) + rest))
  }

  function HelloBytes(p: Prelude, rest: seq<byte>): seq<byte>
    requires p.Valid()
  {
    [CLIENT_HELLO] + (p.length + (Be16(p.version) + (p.random + VectorsBytes(p, rest))))
  }

  function TakeVectors(b: seq<byte>): Field<(seq<byte>, seq<byte>, seq<byte>)> {
    var (session, b1) :- TakeVec8(b);
    var (ciphers, b2) :- TakeVec16(b1);
    var (compression, b3) :- TakeVec8(b2);
    Got((session, ciphers, compression), b3)
  }

  function TakeFixed(b: seq<byte>): Field<(seq<byte>, u16, seq<byte>)> {
    var (length, b1) :- Take(b, 3, ());
    var (version, b2) :- TakeU16(b1);
    var (random, b3) :- Take(b2, 32, ());
    Got((length, version, random), b3)
  }

  function TakePrelude(b: seq<byte>): Field<Prelude> {
    var (kind, b1) :- TakeU8(b, ());
    if kind != CLIENT_HELLO then Cut(())
    else
      var (fixed, b2) :- TakeFixed(b1);
      var (vectors, b3) :- TakeVectors(b2);
      Got(Prelude(fixed.0, fixed.1, fixed.2, vectors.0, vectors.1, vectors.2), b3)
  }

  lemma TakeVectorsExact(b: seq<byte>, p: Prelude, rest: seq<byte>)
    requires |p.length| == 3 && |p.random| == 32
    ensures TakeVectors(b) == Got((p.session, p.ciphers, p.compression), rest) <==>
            p.Valid() && b == VectorsBytes(p, rest)
  {
    if p.Valid() && b == VectorsBytes(p, rest) {
      var r2 := Vec8(p.compression) + rest;
      var r1 := Vec16(p.ciphers) + r2;
      TakeVec8Exact(b, p.session, r1);
      TakeVec16Exact(r1, p.ciphers, r2);
      TakeVec8Exact(r2, p.compression, rest);
    }
    if TakeVectors(b) == Got((p.session, p.ciphers, p.compression), rest) {
      var b1 := TakeVec8(b).rest;
      var b2 := TakeVec16(b1).rest;
      TakeVec8Exact(b, p.session, b1);
      TakeVec16Exact(b1, p.ciphers, b2);
      TakeVec8Exact(b2, p.compression, rest);
    }
  }

  lemma TakeFixedExact(b: seq<byte>, length: seq<byte>, version: u16, random: seq<byte>, rest: seq<byte>)
    ensures TakeFixed(b) == Got((length, version, random), rest) <==>
            |length| == 3 && |random| == 32 && b == length + (Be16(version) + (random + rest))
  {
    if |length| == 3 && |random| == 32 && b == length + (Be16(version) + (random + rest)) {
      TakeExact(b, length, Be16(version) + (random + rest));
      TakeU16Exact(Be16(version) + (random + rest), version, random + rest);
      TakeExact(random + rest, random, rest);
    }
    if TakeFixed(b) == Got((length, version, random), rest) {
      var b1 := b[3..];
      var b2 := TakeU16(b1).rest;
      TakeExact(b, length, b1);
      TakeU16Exact(b1, version, b2);
      TakeExact(b2, random, rest);
    }
  }

  lemma WrittenPreludeIsTaken(b: seq<byte>, p: Prelude, rest: seq<byte>)
    requires p.Valid() && b == HelloBytes(p, rest)
    ensures TakePrelude(b) == Got(p, rest)
  {
    var vectors := VectorsBytes(p, rest);
    assert b[..1] == [CLIENT_HELLO] && b[1..] == p.length + (Be16(p.version) + (p.random + vectors));
    TakeFixedExact(b[1..], p.length, p.version, p.random, vectors);
    TakeVectorsExact(vectors, p, rest);
  }

  lemma TakenPreludeIsWritten(b: seq<byte>)
    requires TakePrelude(b).Got?
    ensures var got := TakePrelude(b); got.value.Valid() && b == HelloBytes(got.value, got.rest)
  {
    var p, rest := TakePrelude(b).value, TakePrelude(b).rest;
    var b2 := TakeFixed(b[1..]).rest;
    assert b == [CLIENT_HELLO] + b[1..];
    TakeFixedExact(b[1..], p.length, p.version, p.random, b2);
    TakeVectorsExact(b2, p, rest);
  }

  // -------------------------------------------------------------- the record

  /** `record_length`: the header plus the declared length, once the header is there. */
  function RecordLength(b: seq<byte>): Option<nat> {
    if |b| < 5 then None else Some(FromBe16(b[3], b[4]) + 5)
  }

  /** The handshake bytes of a record, as far as the buffer goes. */
  function Body(record: seq<byte>): Option<seq<byte>> {
    if |record| < 5 || record[0] != RECORD_HANDSHAKE then None
    else Some(record[5..5 + Min(FromBe16(record[3], record[4]), |record| - 5)])
  }

  /** A host is non-empty ASCII; it is answered in lower case. */
  predicate IsAscii(name: seq<byte>) { forall i :: 0 <= i < |name| ==> name[i] < 0x80 }

  function LowerByte(b: byte): byte { if 0x41 <= b <= 0x5A then b + 0x20 else b }

  function Lower(name: seq<byte>): (lower: seq<byte>)
    ensures |lower| == |name| && forall i :: 0 <= i < |name| ==> lower[i] == LowerByte(name[i])
  {
    if name == [] then [] else [LowerByte(name[0])] + Lower(name[1..])
  }

  /** What one server_name extension says. */
  function HostIn(data: seq<byte>): Option<seq<byte>> {
    match TakeVec16(data)
    case Cut(_) => None
    case Got(list, _) =>
      match FindHost(list)
      case None => None
      case Some(host) => if host == [] || !IsAscii(host) then None else Some(Lower(host))
  }

  function HostOfBody(body: seq<byte>): Option<seq<byte>> {
    match TakePrelude(body)
    case Cut(_) => None
    case Got(_, rest) =>
      match TakeVec16(rest)
      case Cut(_) => None
      case Got(extensions, _) =>
        match FindServerName(extensions)
        case None => None
        case Some(data) => HostIn(data)
  }

  function ServerName(record: seq<byte>): Option<seq<byte>> {
    match Body(record)
    case None => None
    case Some(body) => HostOfBody(body)
  }

  // ----------------------------------------------------------- the exact answer

  /** A ClientHello that carries a host name, with everything around it left open. */
  datatype Hello = Hello(prelude: Prelude, others: seq<Extension>, names: seq<Name>, host: seq<byte>,
                         afterHost: seq<byte>, afterList: seq<byte>, afterName: seq<byte>, afterExtensions: seq<byte>)

  /** `list`, `data` and `extensions` are the nested vectors of the hello `h`, written out. */
  predicate Nests(h: Hello, list: seq<byte>, data: seq<byte>, extensions: seq<byte>) {
    && h.prelude.Valid()
    && |list| <= MAX_U16 && |extensions| <= MAX_U16
    && ListsHost(list, h.host, h.names, h.afterHost)
    && data == Vec16(list) + h.afterList
    && CarriesServerName(extensions, data, h.others, h.afterName)
  }

  /** The body is the hello `h`. */
  ghost predicate Writes(body: seq<byte>, h: Hello) {
    exists list, data, extensions ::
      && Nests(h, list, data, extensions)
      && body == HelloBytes(h.prelude, Vec16(extensions) + h.afterExtensions)
  }

  lemma WrittenHostIsRead(body: seq<byte>, h: Hello)
    requires Writes(body, h) && h.host != [] && IsAscii(h.host)
    ensures HostOfBody(body) == Some(Lower(h.host))
  {
    var list, data, extensions :|
      Nests(h, list, data, extensions) && body == HelloBytes(h.prelude, Vec16(extensions) + h.afterExtensions);
    WrittenPreludeIsTaken(body, h.prelude, Vec16(extensions) + h.afterExtensions);
    TakeVec16Exact(Vec16(extensions) + h.afterExtensions, extensions, h.afterExtensions);
    CarriedNameIsFound(extensions, data, h.others, h.afterName);
    TakeVec16Exact(data, list, h.afterList);
    ListedHostIsFound(list, h.host, h.names, h.afterHost);
  }

  lemma ReadHostIsWritten(body: seq<byte>) returns (h: Hello)
    requires HostOfBody(body).Some?
    ensures Writes(body, h) && h.host != [] && IsAscii(h.host) && HostOfBody(body) == Some(Lower(h.host))
  {
    var prelude, rest := TakePrelude(body).value, TakePrelude(body).rest;
    TakenPreludeIsWritten(body);
    var extensions, afterExtensions := TakeVec16(rest).value, TakeVec16(rest).rest;
    TakeVec16Exact(rest, extensions, afterExtensions);
    var others, afterName := FoundNameIsCarried(extensions);
    var data := FindServerName(extensions).value;
    var list, afterList := TakeVec16(data).value, TakeVec16(data).rest;
    TakeVec16Exact(data, list, afterList);
    var names, afterHost := FoundHostIsListed(list);
    h := Hello(prelude, others, names, FindHost(list).value, afterHost, afterList, afterName, afterExtensions);
    assert Nests(h, list, data, extensions);
  }

  /** The record holds the body: all of it with anything after, or a front part of what it declares. */
  predicate Frames(record: seq<byte>, version: u16, declared: u16, body: seq<byte>, trailing: seq<byte>) {
    && record == [RECORD_HANDSHAKE] + Be16(version) + Be16(declared) + body + trailing
    && (declared == |body| || (declared > |body| && trailing == []))
  }

  lemma FramedBody(record: seq<byte>, version: u16, declared: u16, body: seq<byte>, trailing: seq<byte>)
    requires Frames(record, version, declared, body, trailing)
    ensures Body(record) == Some(body)
  {
    assert FromBe16(record[3], record[4]) == declared;
    assert record[5..5 + |body|] == body;
  }

  lemma BodyIsFramed(record: seq<byte>) returns (version: u16, declared: u16, trailing: seq<byte>)
    requires Body(record).Some?
    ensures Frames(record, version, declared, Body(record).value, trailing)
  {
    var body := Body(record).value;
    version, declared, trailing := FromBe16(record[1], record[2]), FromBe16(record[3], record[4]), record[5 + |body|..];
    SplitsBytes(record[1], record[2]);
    SplitsBytes(record[3], record[4]);
  }

  lemma SplitsBytes(hi: byte, lo: byte)
    ensures Be16(FromBe16(hi, lo)) == [hi, lo]
  {
  }

  /**
    Whatever the session id, cipher suites, compression list, other extensions before the
    server name and other names before the host, the host is read, in lower case.
   */
  lemma HostIsRead(record: seq<byte>, version: u16, declared: u16, body: seq<byte>, trailing: seq<byte>, h: Hello)
    requires Frames(record, version, declared, body, trailing) && Writes(body, h) && h.host != [] && IsAscii(h.host)
    ensures ServerName(record) == Some(Lower(h.host))
  {
    FramedBody(record, version, declared, body, trailing);
    WrittenHostIsRead(body, h);
  }

  /** And nothing else is ever read as a host. */
  lemma OnlyWrittenHostsAreRead(record: seq<byte>)
    requires ServerName(record).Some?
    ensures exists version, declared, body, trailing, h ::
              && Frames(record, version, declared, body, trailing) && Writes(body, h)
              && h.host != [] && IsAscii(h.host) && ServerName(record) == Some(Lower(h.host))
  {
    var version, declared, trailing := BodyIsFramed(record);
    var h := ReadHostIsWritten(Body(record).value);
  }

  /** Once the buffer holds the whole record, more bytes do not change the answer. */
  lemma TrailingBytesDoNotMatter(record: seq<byte>, more: seq<byte>)
    requires RecordLength(record).Some? && RecordLength(record).value <= |record|
    ensures RecordLength(record + more) == RecordLength(record)
    ensures ServerName(record + more) == ServerName(record)
  {
    var n := RecordLength(record).value;
    assert (record + more)[..n] == record[..n];
    assert (record + more)[5..n] == record[5..n];
  }

  // ---------------------------------------------------------------- the reader

  method ReadU16(r: Cursor) returns (x: Option<u16>)
    requires r.Valid()
    modifies r
    ensures r.Valid()
    ensures match TakeU16(old(r.Rest()))
            case Got(v, rest) => x == Some(v) && r.Rest() == rest
            case Cut(_) => x == None && r.at == old(r.at)
  {
    var b := r.TakeBytes(2, ());
    x := if b.Ok? then Some(FromBe16(b.value[0], b.value[1])) else None;
  }

  method SkipVec8(r: Cursor) returns (ok: bool)
    requires r.Valid()
    modifies r
    ensures r.Valid()
    ensures match TakeVec8(old(r.Rest()))
            case Got(_, rest) => ok && r.Rest() == rest
            case Cut(_) => !ok
  {
    var len := r.U8(());
    if len.Err? { return false; }
    var skipped := r.TakeBytes(len.value, ());
    return skipped.Ok?;
  }

  method ReadVec16(r: Cursor) returns (x: Option<seq<byte>>)
    requires r.Valid()
    modifies r
    ensures r.Valid()
    ensures match TakeVec16(old(r.Rest()))
            case Got(v, rest) => x == Some(v) && r.Rest() == rest
            case Cut(_) => x == None
  {
    var len := ReadU16(r);
    if len.None? { return None; }
    var v := r.TakeBytes(len.value, ());
    return if v.Ok? then Some(v.value) else None;
  }

  method ReadName(n: Cursor) returns (name: Option<Name>)
    requires n.Valid()
    modifies n
    ensures n.Valid()
    ensures match TakeName(old(n.Rest()))
            case Got(x, rest) => name == Some(x) && n.Rest() == rest
            case Cut(_) => name == None
  {
    var kind := n.U8(());
    if kind.Err? { return None; }
    var text := ReadVec16(n);
    return if text.Some? then Some(Name(kind.value, text.value)) else None;
  }

  lemma FindsNextName(b: seq<byte>)
    ensures match TakeName(b)
            case Cut(_) => FindHost(b) == None
            case Got(x, rest) =>
              |rest| < |b| && FindHost(b) == if x.kind == HOST_NAME then Some(x.text) else FindHost(rest)
  {
  }

  /** The loop over the names of a server_name list. */
  method ReadHost(list: seq<byte>) returns (host: Option<seq<byte>>)
    ensures host == FindHost(list)
  {
    var n := new Cursor(list);
    while true
      invariant n.Valid() && FindHost(list) == FindHost(n.Rest())
      decreases |n.Rest()|
    {
      FindsNextName(n.Rest());
      var name := ReadName(n);
      if name.None? {
        return None;
      }
      if name.value.kind == HOST_NAME {
        return Some(name.value.text);
      }
    }
  }

  method ReadExtension(e: Cursor) returns (extension: Option<Extension>)
    requires e.Valid()
    modifies e
    ensures e.Valid()
    ensures match TakeExtension(old(e.Rest()))
            case Got(x, rest) => extension == Some(x) && e.Rest() == rest
            case Cut(_) => extension == None
  {
    var kind := ReadU16(e);
    if kind.None? { return None; }
    var data := ReadVec16(e);
    return if data.Some? then Some(Extension(kind.value, data.value)) else None;
  }

  lemma FindsNextExtension(b: seq<byte>)
    ensures match TakeExtension(b)
            case Cut(_) => FindServerName(b) == None
            case Got(x, rest) =>
              && |rest| < |b|
              && FindServerName(b) == if x.kind == SERVER_NAME then Some(x.data) else FindServerName(rest)
  {
  }

  /** The loop over the extensions of a hello. */
  method ReadServerName(extensions: seq<byte>) returns (data: Option<seq<byte>>)
    ensures data == FindServerName(extensions)
  {
    var e := new Cursor(extensions);
    while true
      invariant e.Valid() && FindServerName(extensions) == FindServerName(e.Rest())
      decreases |e.Rest()|
    {
      FindsNextExtension(e.Rest());
      var extension := ReadExtension(e);
      if extension.None? {
        return None;
      }
      if extension.value.kind == SERVER_NAME {
        return Some(extension.value.data);
      }
    }
  }

  /** From the handshake type to the end of the compression methods. */
  method SkipPrelude(h: Cursor) returns (ok: bool)
    requires h.Valid()
    modifies h
    ensures h.Valid()
    ensures match TakePrelude(old(h.Rest()))
            case Got(_, rest) => ok && h.Rest() == rest
            case Cut(_) => !ok
  {
    var kind := h.U8(());
    if kind.Err? || kind.value != CLIENT_HELLO { return false; }
    ok := SkipFixed(h);
    if !ok { return false; }
    ok := SkipVectors(h);
  }

  method SkipFixed(h: Cursor) returns (ok: bool)
    requires h.Valid()
    modifies h
    ensures h.Valid()
    ensures match TakeFixed(old(h.Rest()))
            case Got(_, rest) => ok && h.Rest() == rest
            case Cut(_) => !ok
  {
    var length := h.TakeBytes(3, ());
    if length.Err? { return false; }
    var version := ReadU16(h);
    if version.None? { return false; }
    var random := h.TakeBytes(32, ());
    return random.Ok?;
  }

  method SkipVectors(h: Cursor) returns (ok: bool)
    requires h.Valid()
    modifies h
    ensures h.Valid()
    ensures match TakeVectors(old(h.Rest()))
            case Got(_, rest) => ok && h.Rest() == rest
            case Cut(_) => !ok
  {
    ok := SkipVec8(h);
    if !ok { return; }
    var ciphers := ReadVec16(h);
    if ciphers.None? { return false; }
    ok := SkipVec8(h);
  }

  /** `server_name`: total on every byte string. */
  method Read(record: seq<byte>) returns (host: Option<seq<byte>>)
    ensures host == ServerName(record)
  {
    if |record| < 5 || record[0] != RECORD_HANDSHAKE {
      return None;
    }
    var body := record[5..5 + Min(FromBe16(record[3], record[4]), |record| - 5)];
    var h := new Cursor(body);
    var ok := SkipPrelude(h);
    if !ok { return None; }
    var extensions := ReadVec16(h);
    if extensions.None? { return None; }
    var data := ReadServerName(extensions.value);
    if data.None? { return None; }
    var names := new Cursor(data.value);
    var list := ReadVec16(names);
    if list.None? { return None; }
    var name := ReadHost(list.value);
    if name.None? || name.value == [] || !IsAscii(name.value) {
      return None;
    }
    return Some(Lower(name.value));
  }
}
