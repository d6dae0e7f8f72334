/** IP addresses, socket addresses and the IPv4-mapped normalisation shared by the
    registry, the UDP relay and the whitelist (src/server.rs, src/config.rs). */
module Net {
  import opened Wrappers
  import opened Bytes

  type u16 = x: int | 0 <= x < 0x1_0000
  type u32 = x: int | 0 <= x < 0x1_0000_0000
  type u128 = x: int | 0 <= x < 0x1_0000_0000_0000_0000_0000_0000_0000_0000

  datatype IpAddr = V4(v4: u32) | V6(v6: u128)

  datatype SocketAddr = SocketAddr(ip: IpAddr, port: u16)

  /** `Host` and `Target` of src/protocol.rs:13-23. */
  datatype Host = Ip(ip: IpAddr) | Domain(name: Utf8)

  datatype Target = Target(host: Host, port: u16)

  // The 96 bits in front of an IPv4-mapped IPv6 address (section 2.5.5.2 of RFC 4291).
  const MAPPED_PREFIX := 0xFFFF
  const V4_SPAN := 0x1_0000_0000

  function ToIpv4Mapped(v6: u128): Option<u32> {
    if v6 / V4_SPAN == MAPPED_PREFIX then Some(v6 % V4_SPAN) else None
  }

  function MappedForm(v4: u32): IpAddr {
    V6(MAPPED_PREFIX * V4_SPAN + v4)
  }

  function Normalize(ip: IpAddr): IpAddr {
    match ip
    case V4(_) => ip
    case V6(v6) => match ToIpv4Mapped(v6) case Some(v4) => V4(v4) case None => ip
  }

  function EndpointKey(address: SocketAddr): SocketAddr {
    SocketAddr(Normalize(address.ip), address.port)
  }

  /** Two addresses normalise to the same one exactly when they are equal or one is the
      mapped form of the other. */
  lemma NormalizeIdentifies(x: IpAddr, y: IpAddr)
    ensures Normalize(x) == Normalize(y) <==>
      x == y || (x.V4? && y == MappedForm(x.v4)) || (y.V4? && x == MappedForm(y.v4))
    ensures Normalize(Normalize(x)) == Normalize(x)
  {
    if x.V6? && y.V6? && ToIpv4Mapped(x.v6).Some? && ToIpv4Mapped(y.v6).Some? {
      assert x.v6 == V4_SPAN * (x.v6 / V4_SPAN) + x.v6 % V4_SPAN;
      assert y.v6 == V4_SPAN * (y.v6 / V4_SPAN) + y.v6 % V4_SPAN;
    }
  }

  lemma PrefixOctets(prefix: seq<byte>)
    requires |prefix| == 12
    ensures FromBe(prefix) == MAPPED_PREFIX <==> prefix == [0, 0, 0, 0, 0, 0, 0, 0, 0, 0, 255, 255]
  {
    var mapped: seq<byte> := [0, 0, 0, 0, 0, 0, 0, 0, 0, 0, 255, 255];
    FromBeConcat(mapped[..10], mapped[10..]);
    assert mapped == mapped[..10] + mapped[10..];
    ZerosAreZero(mapped[..10]);
    FromBeTwo(255, 255);
    EncodeDecode(prefix);
    EncodeDecode(mapped);
  }

  /** Normalisation on the sixteen octets of an IPv6 address: ten zeros, 255, 255 stand before the
      four octets of an IPv4 address. */
  lemma NormalizeOctets(octets: seq<byte>)
    requires |octets| == 16
    ensures FromBe(octets) < 0x1_0000_0000_0000_0000_0000_0000_0000_0000 && FromBe(octets[12..]) < 0x1_0000_0000
    ensures Normalize(V6(FromBe(octets))) ==
      if octets[..12] == [0, 0, 0, 0, 0, 0, 0, 0, 0, 0, 255, 255] then V4(FromBe(octets[12..])) else V6(FromBe(octets))
  {
    var high, low := octets[..12], octets[12..];
    Powers();
    FromBeBound(octets);
    FromBeBound(low);
    FromBeConcat(high, low);
    assert octets == high + low;
    PrefixOctets(high);
  }

  /** Two sources share a key exactly if their ports are equal and their addresses are equal or
      one is the mapped form of the other. */
  lemma KeysAgree(x: SocketAddr, y: SocketAddr)
    ensures EndpointKey(x) == EndpointKey(y) <==>
      x.port == y.port
      && (x.ip == y.ip || (x.ip.V4? && y.ip == MappedForm(x.ip.v4)) || (y.ip.V4? && x.ip == MappedForm(y.ip.v4)))
  {
    NormalizeIdentifies(x.ip, y.ip);
  }

  /** A bound endpoint is one that the association may have: the client's address, and the
      requested port if one was named. */
  predicate EndpointFits(clientIp: IpAddr, requestedPort: u16, endpoint: Option<SocketAddr>) {
    endpoint.Some? ==>
      && Normalize(endpoint.value.ip) == Normalize(clientIp)
      && (requestedPort != 0 ==> endpoint.value.port == requestedPort)
  }

  /** What `Association::accepts` answers: same client address, the requested port if one
      was named, and the key already bound if there is one. */
  predicate Accepts(clientIp: IpAddr, requestedPort: u16, endpoint: Option<SocketAddr>, source: SocketAddr) {
    && Normalize(source.ip) == Normalize(clientIp)
    && (requestedPort == 0 || requestedPort == source.port)
    && (endpoint.Some? ==> EndpointKey(endpoint.value) == EndpointKey(source))
  }
}
