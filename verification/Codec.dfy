/** The SOCKS5 message formats of src/protocol.rs as functions on byte sequences (sections 4,
    5, 6 and 7 of RFC 1928), and the proof that each format is read back exactly. */
module Codec {
  import opened Wrappers
  import opened Bytes
  import opened Net

  const CONNECT: byte := 1
  const UDP_ASSOCIATE: byte := 3
  const V4_TYPE: byte := 1
  const DOMAIN_TYPE: byte := 3
  const V6_TYPE: byte := 4

  datatype ErrorKind = InvalidData | UnexpectedEof | InvalidInput | PermissionDenied

  // ---- Printing ----

  function AddressType(ip: IpAddr): byte {
    match ip case V4(_) => V4_TYPE case V6(_) => V6_TYPE
  }

  function Octets(ip: IpAddr): seq<byte> {
    match ip case V4(n) => ToBe(n, 4) case V6(n) => ToBe(n, 16)
  }

  /** `encode_address`. */
  function AddressBytes(address: SocketAddr): seq<byte> {
    [AddressType(address.ip)] + Octets(address.ip) + ToBe(address.port, 2)
  }

  /** A domain has to fit the length byte and must not be empty. */
  predicate Encodable(t: Target) {
    t.host.Domain? ==> 1 <= |t.host.name| <= 255
  }

  function HostType(h: Host): byte {
    match h case Ip(ip) => AddressType(ip) case Domain(_) => DOMAIN_TYPE
  }

  function HostBytes(h: Host): seq<byte>
    requires h.Domain? ==> |h.name| <= 255
  {
    match h case Ip(ip) => Octets(ip) case Domain(name) => [|name|] + name
  }

  /** What `encode_target` pushes for an encodable target. */
  function TargetBytes(t: Target): seq<byte>
    requires Encodable(t)
  {
    [HostType(t.host)] + HostBytes(t.host) + ToBe(t.port, 2)
  }

  /** A request or a reply: version, code, reserved byte, target. */
  function MessageBytes(code: byte, t: Target): seq<byte>
    requires Encodable(t)
  {
    [5, code, 0] + TargetBytes(t)
  }

  function DatagramBytes(t: Target, payload: seq<byte>): seq<byte>
    requires Encodable(t)
  {
    [0, 0, 0] + TargetBytes(t) + payload
  }

  // ---- Parsing ----

  datatype Parsed<+T> = Parsed(value: T, rest: seq<byte>)

  /** `read_exact` of `n` bytes. */
  function Take(b: seq<byte>, n: nat): Result<Parsed<seq<byte>>, ErrorKind> {
    if |b| < n then Err(UnexpectedEof) else Ok(Parsed(b[..n], b[n..]))
  }

  function ToU16(b: seq<byte>): u16
    requires |b| == 2
  {
    FromBeBound(b);
    Powers();
    FromBe(b)
  }

  function ToV4(b: seq<byte>): IpAddr
    requires |b| == 4
  {
    FromBeBound(b);
    Powers();
    V4(FromBe(b))
  }

  function ToV6(b: seq<byte>): IpAddr
    requires |b| == 16
  {
    FromBeBound(b);
    Powers();
    V6(FromBe(b))
  }

  function ParseDomain(b: seq<byte>): Result<Parsed<Host>, ErrorKind> {
    match Take(b, 1)
    case Err(e) => Err(e)
    case Ok(length) =>
      if length.value[0] == 0 then Err(InvalidData)
      else match Take(length.rest, length.value[0])
        case Err(e) => Err(e)
        case Ok(name) => if ValidUtf8(name.value) then Ok(Parsed(Domain(name.value), name.rest)) else Err(InvalidData)
  }

  function ParseHost(b: seq<byte>, atyp: byte): Result<Parsed<Host>, ErrorKind> {
    if atyp == V4_TYPE then
      match Take(b, 4) case Err(e) => Err(e) case Ok(p) => Ok(Parsed(Ip(ToV4(p.value)), p.rest))
    else if atyp == DOMAIN_TYPE then ParseDomain(b)
    else if atyp == V6_TYPE then
      match Take(b, 16) case Err(e) => Err(e) case Ok(p) => Ok(Parsed(Ip(ToV6(p.value)), p.rest))
    else Err(InvalidData)
  }

  /** `read_target`. */
  function ParseTarget(b: seq<byte>, atyp: byte): Result<Parsed<Target>, ErrorKind> {
    match ParseHost(b, atyp)
    case Err(e) => Err(e)
    case Ok(host) =>
      match Take(host.rest, 2)
      case Err(e) => Err(e)
      case Ok(port) => Ok(Parsed(Target(host.value, ToU16(port.value)), port.rest))
  }

  /** `read_request` and `read_reply`. */
  function ParseMessage(b: seq<byte>): Result<Parsed<(byte, Target)>, ErrorKind> {
    match Take(b, 4)
    case Err(e) => Err(e)
    case Ok(header) =>
      if header.value[0] != 5 || header.value[2] != 0 then Err(InvalidData)
      else match ParseTarget(header.rest, header.value[3])
        case Err(e) => Err(e)
        case Ok(t) => Ok(Parsed((header.value[1], t.value), t.rest))
  }

  /** `parse_datagram`; the rest is the payload. */
  function ParseDatagram(b: seq<byte>): Result<Parsed<Target>, ErrorKind> {
    if |b| < 4 || b[..3] != [0, 0, 0] then Err(InvalidData)
    else match ParseTarget(b[4..], b[3])
      case Err(e) => Err(e)
      case Ok(t) => if t.rest == [] then Err(InvalidData) else Ok(t)
  }

  // ---- The formats, byte by byte ----

  /** Numbers and addresses by their octets, the high one first. */
  lemma Numbers(a: byte, b: byte, c: byte, d: byte)
    ensures ToU16([a, b]) == a * 0x100 + b
    ensures ToV4([a, b, c, d]) == V4(a * 0x100_0000 + b * 0x1_0000 + c * 0x100 + d)
    ensures ToBe(ToU16([a, b]), 2) == [a, b] && Octets(ToV4([a, b, c, d])) == [a, b, c, d]
  {
    FromBeTwo(a, b);
    FromBeFour(a, b, c, d);
    EncodeDecode([a, b]);
    EncodeDecode([a, b, c, d]);
  }

  /** The three address formats: an IPv4 address has type 1 and four octets, a domain type 3,
      its length and its bytes, an IPv6 address type 4 and sixteen octets; then the port. */
  lemma TargetFormat(a: byte, b: byte, c: byte, d: byte, octets: seq<byte>, name: Utf8, high: byte, low: byte)
    requires |octets| == 16 && 1 <= |name| <= 255
    ensures TargetBytes(Target(Ip(ToV4([a, b, c, d])), ToU16([high, low]))) == [1, a, b, c, d, high, low]
    ensures TargetBytes(Target(Domain(name), ToU16([high, low]))) == [3, |name|] + name + [high, low]
    ensures TargetBytes(Target(Ip(ToV6(octets)), ToU16([high, low]))) == [4] + octets + [high, low]
  {
    Numbers(a, b, c, d);
    Numbers(high, low, c, d);
    EncodeDecode(octets);
  }

  /** A reply gives the address of the server in the same format. */
  lemma AddressFormat(address: SocketAddr)
    ensures AddressBytes(address) == TargetBytes(Target(Ip(address.ip), address.port))
  {}

  /** A request or reply for an IPv4 address has ten bytes: version 5, the code, a zero byte and
      the address. A datagram has three zero bytes, the address, and the payload. */
  lemma MessageFormat(code: byte, a: byte, b: byte, c: byte, d: byte, high: byte, low: byte, payload: seq<byte>)
    ensures var t := Target(Ip(ToV4([a, b, c, d])), ToU16([high, low]));
            && MessageBytes(code, t) == [5, code, 0, 1, a, b, c, d, high, low]
            && DatagramBytes(t, payload) == [0, 0, 0, 1, a, b, c, d, high, low] + payload
  {
    Numbers(a, b, c, d);
    Numbers(high, low, c, d);
  }

  // ---- Reading back ----

  /** A host is read back, whatever follows it. */
  lemma HostReadBack(h: Host, rest: seq<byte>)
    requires h.Domain? ==> 1 <= |h.name| <= 255
    ensures ParseHost(HostBytes(h) + rest, HostType(h)) == Ok(Parsed(h, rest))
  {
    var b := HostBytes(h) + rest;
    Powers();
    match h
    case Ip(V4(n)) =>
      DecodeEncode(n, 4);
      assert b[..4] == ToBe(n, 4) && b[4..] == rest;
    case Ip(V6(n)) =>
      DecodeEncode(n, 16);
      assert b[..16] == ToBe(n, 16) && b[16..] == rest;
    case Domain(name) =>
      assert b[..1] == [|name|];
      assert b[1..] == name + rest;
      assert (name + rest)[..|name|] == name && (name + rest)[|name|..] == rest;
  }

  /** Whatever is read as a host is its encoding: there is only one. */
  lemma HostCanonical(b: seq<byte>, atyp: byte)
    requires ParseHost(b, atyp).Ok?
    ensures var p := ParseHost(b, atyp).value;
            && (p.value.Domain? ==> 1 <= |p.value.name| <= 255)
            && atyp == HostType(p.value)
            && b == HostBytes(p.value) + p.rest
  {
    if atyp == V4_TYPE {
      EncodeDecode(b[..4]);
    } else if atyp == V6_TYPE {
      EncodeDecode(b[..16]);
    } else {
      assert b[1..] == b[1..][..b[0]] + b[1..][b[0]..];
    }
  }

  lemma TargetReadBack(t: Target, rest: seq<byte>)
    requires Encodable(t)
    ensures ParseTarget(HostBytes(t.host) + ToBe(t.port, 2) + rest, HostType(t.host)) == Ok(Parsed(t, rest))
  {
    var tail := ToBe(t.port, 2) + rest;
    assert HostBytes(t.host) + ToBe(t.port, 2) + rest == HostBytes(t.host) + tail;
    HostReadBack(t.host, tail);
    Powers();
    DecodeEncode(t.port, 2);
    assert tail[..2] == ToBe(t.port, 2) && tail[2..] == rest;
  }

  lemma TargetCanonical(b: seq<byte>, atyp: byte)
    requires ParseTarget(b, atyp).Ok?
    ensures var p := ParseTarget(b, atyp).value;
            && Encodable(p.value)
            && atyp == HostType(p.value.host)
            && b == HostBytes(p.value.host) + ToBe(p.value.port, 2) + p.rest
  {
    HostCanonical(b, atyp);
    var host := ParseHost(b, atyp).value;
    EncodeDecode(host.rest[..2]);
    assert host.rest == host.rest[..2] + host.rest[2..];
  }

  lemma MessageReadBack(code: byte, t: Target, rest: seq<byte>)
    requires Encodable(t)
    ensures ParseMessage(MessageBytes(code, t) + rest) == Ok(Parsed((code, t), rest))
  {
    var b := MessageBytes(code, t) + rest;
    TargetReadBack(t, rest);
    assert b[..4] == [5, code, 0, HostType(t.host)];
    assert b[4..] == HostBytes(t.host) + ToBe(t.port, 2) + rest;
  }

  lemma Regroup(a: seq<byte>, b: seq<byte>, c: seq<byte>, d: seq<byte>, e: seq<byte>)
    ensures a + b + (c + d + e) == a + (b + c + d) + e
  {}

  lemma MessageCanonical(b: seq<byte>)
    requires ParseMessage(b).Ok?
    ensures var p := ParseMessage(b).value;
            Encodable(p.value.1) && b == MessageBytes(p.value.0, p.value.1) + p.rest
  {
    TargetCanonical(b[4..], b[3]);
    var p := ParseTarget(b[4..], b[3]).value;
    assert ParseMessage(b).value == Parsed((b[1], p.value), p.rest);
    assert b == [5, b[1], 0] + [b[3]] + b[4..];
    Regroup([5, b[1], 0], [b[3]], HostBytes(p.value.host), ToBe(p.value.port, 2), p.rest);
  }

  /** The requests and replies accepted are exactly the encodings, followed by anything;
      reading one leaves what follows unread. */
  lemma MessageBijection(b: seq<byte>, code: byte, t: Target, rest: seq<byte>)
    ensures ParseMessage(b) == Ok(Parsed((code, t), rest)) <==>
      Encodable(t) && b == MessageBytes(code, t) + rest
  {
    if Encodable(t) && b == MessageBytes(code, t) + rest { MessageReadBack(code, t, rest); }
    if ParseMessage(b).Ok? { MessageCanonical(b); }
  }

  /** The datagrams accepted are exactly the encodings of a target and a payload that is not
      empty. */
  lemma DatagramBijection(b: seq<byte>, t: Target, payload: seq<byte>)
    ensures ParseDatagram(b) == Ok(Parsed(t, payload)) <==>
      payload != [] && Encodable(t) && b == DatagramBytes(t, payload)
  {
    if Encodable(t) && b == DatagramBytes(t, payload) {
      TargetReadBack(t, payload);
      assert b[4..] == HostBytes(t.host) + ToBe(t.port, 2) + payload;
      assert b[..3] == [0, 0, 0];
    }
    if ParseDatagram(b) == Ok(Parsed(t, payload)) {
      TargetCanonical(b[4..], b[3]);
      assert b == [0, 0, 0] + [b[3]] + b[4..];
      Regroup([0, 0, 0], [b[3]], HostBytes(t.host), ToBe(t.port, 2), payload);
    }
  }

  /** No two different messages have encodings that begin alike: neither is a prefix of the
      other, even with other bytes behind them. */
  lemma MessagesDelimitThemselves(c: byte, t: Target, rest: seq<byte>, c': byte, t': Target, rest': seq<byte>)
    requires Encodable(t) && Encodable(t')
    requires MessageBytes(c, t) + rest == MessageBytes(c', t') + rest'
    ensures c == c' && t == t' && rest == rest'
  {
    MessageBijection(MessageBytes(c, t) + rest, c, t, rest);
    MessageBijection(MessageBytes(c, t) + rest, c', t', rest');
  }

  /** The encoding of a datagram is read back exactly if its payload is not empty; one with
      an empty payload is encoded by the sender and refused by the receiver. */
  lemma EmptyPayloadIsRefused(t: Target, payload: seq<byte>)
    requires Encodable(t)
    ensures ParseDatagram(DatagramBytes(t, payload)) ==
      if payload == [] then Err(InvalidData) else Ok(Parsed(t, payload))
  {
    var b := DatagramBytes(t, payload);
    TargetReadBack(t, payload);
    assert b[4..] == HostBytes(t.host) + ToBe(t.port, 2) + payload;
    assert b[..3] == [0, 0, 0];
  }
}
