/** The readers and writers of src/protocol.rs in their own form: readers consume a stream,
    writers push onto a buffer, and the reply header is written into the receive buffer in
    place. Each is proved against the formats of module `Codec`. */
module CodecIo {
  import opened Wrappers
  import opened Bytes
  import opened Net
  import opened Codec

  /** What is still to be read. */
  class Stream {
    var rest: seq<byte>

    constructor (bytes: seq<byte>)
      ensures rest == bytes
    {
      rest := bytes;
    }

    /** `read_exact`; how much is consumed when the input is too short is not specified. */
    method ReadExact(n: nat) returns (r: Result<seq<byte>, ErrorKind>)
      modifies this
      ensures r == match Take(old(rest), n) case Ok(p) => Ok(p.value) case Err(e) => Err(e)
      ensures r.Ok? ==> rest == old(rest)[n..]
    {
      if |rest| < n {
        rest := [];
        return Err(UnexpectedEof);
      }
      r := Ok(rest[..n]);
      rest := rest[n..];
    }
  }

  method ReadTarget(reader: Stream, atyp: byte) returns (r: Result<Target, ErrorKind>)
    modifies reader
    ensures match ParseTarget(old(reader.rest), atyp)
            case Ok(p) => r == Ok(p.value) && reader.rest == p.rest
            case Err(e) => r == Err(e)
  {
    var host: Host;
    if atyp == 1 {
      var octets := reader.ReadExact(4);
      if octets.Err? { return Err(octets.error); }
      host := Ip(ToV4(octets.value));
    } else if atyp == 3 {
      var length := reader.ReadExact(1);
      if length.Err? { return Err(length.error); }
      if length.value[0] == 0 { return Err(InvalidData); }
      var name := reader.ReadExact(length.value[0]);
      if name.Err? { return Err(name.error); }
      if !ValidUtf8(name.value) { return Err(InvalidData); }
      host := Domain(name.value);
    } else if atyp == 4 {
      var octets := reader.ReadExact(16);
      if octets.Err? { return Err(octets.error); }
      host := Ip(ToV6(octets.value));
    } else {
      return Err(InvalidData);
    }
    var port := reader.ReadExact(2);
    if port.Err? { return Err(port.error); }
    r := Ok(Target(host, ToU16(port.value)));
  }

  /** `read_request` and `read_reply`, which differ in nothing but an error text. */
  method ReadMessage(reader: Stream) returns (r: Result<(byte, Target), ErrorKind>)
    modifies reader
    ensures match ParseMessage(old(reader.rest))
            case Ok(p) => r == Ok(p.value) && reader.rest == p.rest
            case Err(e) => r == Err(e)
  {
    var header := reader.ReadExact(4);
    if header.Err? { return Err(header.error); }
    if header.value[0] != 5 || header.value[2] != 0 { return Err(InvalidData); }
    var target := ReadTarget(reader, header.value[3]);
    if target.Err? { return Err(target.error); }
    r := Ok((header.value[1], target.value));
  }

  /** `parse_datagram` makes its own reader over the bytes after the header. */
  method ReadDatagram(bytes: seq<byte>) returns (r: Result<(Target, seq<byte>), ErrorKind>)
    ensures r == match ParseDatagram(bytes) case Ok(p) => Ok((p.value, p.rest)) case Err(e) => Err(e)
  {
    if |bytes| < 4 || bytes[..3] != [0, 0, 0] { return Err(InvalidData); }
    var reader := new Stream(bytes[4..]);
    var target := ReadTarget(reader, bytes[3]);
    if target.Err? { return Err(target.error); }
    if reader.rest == [] { return Err(InvalidData); }
    r := Ok((target.value, reader.rest));
  }

  /** `Vec<u8>`. */
  class Buffer {
    var bytes: seq<byte>

    constructor ()
      ensures bytes == []
    {
      bytes := [];
    }

    method Push(b: byte)
      modifies this
      ensures bytes == old(bytes) + [b]
    {
      bytes := bytes + [b];
    }

    method Extend(more: seq<byte>)
      modifies this
      ensures bytes == old(bytes) + more
    {
      bytes := bytes + more;
    }
  }

  method EncodeAddress(buffer: Buffer, address: SocketAddr)
    modifies buffer
    ensures buffer.bytes == old(buffer.bytes) + AddressBytes(address)
  {
    match address.ip {
      case V4(n) =>
        buffer.Push(1);
        buffer.Extend(ToBe(n, 4));
      case V6(n) =>
        buffer.Push(4);
        buffer.Extend(ToBe(n, 16));
    }
    buffer.Extend(ToBe(address.port, 2));
  }

  method EncodeTarget(buffer: Buffer, target: Target) returns (r: Result<(), ErrorKind>)
    modifies buffer
    ensures r == if Encodable(target) then Ok(()) else Err(InvalidInput)
    ensures buffer.bytes == old(buffer.bytes) + (if Encodable(target) then TargetBytes(target) else [])
  {
    match target.host {
      case Ip(ip) => EncodeAddress(buffer, SocketAddr(ip, target.port));
      case Domain(name) =>
        if name == [] || |name| > 255 { return Err(InvalidInput); }
        ghost var was := buffer.bytes;
        buffer.Push(3);
        buffer.Push(|name|);
        buffer.Extend(name);
        assert buffer.bytes == was + ([3] + HostBytes(target.host));
        buffer.Extend(ToBe(target.port, 2));
    }
    r := Ok(());
  }

  /** `write_request`: nothing is written unless the target can be encoded. */
  method WriteRequest(writer: Buffer, command: byte, target: Target) returns (r: Result<(), ErrorKind>)
    modifies writer
    ensures r == if Encodable(target) then Ok(()) else Err(InvalidInput)
    ensures writer.bytes == old(writer.bytes) + (if Encodable(target) then MessageBytes(command, target) else [])
  {
    var bytes := new Buffer();
    bytes.Extend([5, command, 0]);
    assert bytes.bytes == [5, command, 0];
    r := EncodeTarget(bytes, target);
    if r.Ok? { writer.Extend(bytes.bytes); }
  }

  method WriteReply(writer: Buffer, status: byte, address: SocketAddr)
    modifies writer
    ensures writer.bytes == old(writer.bytes) + MessageBytes(status, Target(Ip(address.ip), address.port))
  {
    var bytes := new Buffer();
    bytes.Extend([5, status, 0]);
    EncodeAddress(bytes, address);
    writer.Extend(bytes.bytes);
  }

  /** `encode_datagram`. */
  method EncodeDatagram(address: SocketAddr, payload: seq<byte>) returns (bytes: seq<byte>)
    ensures bytes == DatagramBytes(Target(Ip(address.ip), address.port), payload)
  {
    var buffer := new Buffer();
    buffer.Extend([0, 0, 0]);
    EncodeAddress(buffer, address);
    buffer.Extend(payload);
    bytes := buffer.bytes;
  }

  /** The buffer is cleared first; on an error the three bytes in front stay in it. */
  method AppendDatagramTo(buffer: Buffer, target: Target, payload: seq<byte>) returns (r: Result<(), ErrorKind>)
    modifies buffer
    ensures r == if Encodable(target) then Ok(()) else Err(InvalidInput)
    ensures buffer.bytes == if Encodable(target) then DatagramBytes(target, payload) else [0, 0, 0]
  {
    buffer.bytes := [];
    buffer.Extend([0, 0, 0]);
    assert buffer.bytes == [0, 0, 0];
    r := EncodeTarget(buffer, target);
    if r.Ok? { buffer.Extend(payload); }
  }

  // ---- The reply written in front of the payload ----

  const REPLY_OFFSET := 22

  function DatagramHeaderLen(address: SocketAddr): (n: nat)
    ensures n == |DatagramBytes(Target(Ip(address.ip), address.port), [])|
    ensures n <= REPLY_OFFSET
  {
    if address.ip.V4? then 10 else 22
  }

  /** `s` with `from` written over it from `start` on. */
  function Splice(s: seq<byte>, start: nat, from: seq<byte>): (r: seq<byte>)
    requires start + |from| <= |s|
    ensures |r| == |s|
  {
    s[..start] + from + s[start + |from|..]
  }

  /** Writing two pieces one after the other is writing them joined. */
  lemma SpliceTwice(s: seq<byte>, start: nat, x: seq<byte>, y: seq<byte>)
    requires start + |x| + |y| <= |s|
    ensures Splice(Splice(s, start, x), start + |x|, y) == Splice(s, start, x + y)
  {
    assert Splice(s, start, x)[..start + |x|] == s[..start] + x;
  }

  /** What is before, in, and behind the part written over. */
  lemma SpliceParts(s: seq<byte>, start: nat, from: seq<byte>, end: nat)
    requires start + |from| <= end <= |s|
    ensures Splice(s, start, from)[..start] == s[..start]
    ensures Splice(s, start, from)[start + |from|..] == s[start + |from|..]
    ensures Splice(s, start, from)[start..end] == from + s[start + |from|..end]
  {}

  /** `copy_from_slice` into the part of `a` that begins at `start`. */
  method CopyInto(a: array<byte>, start: nat, from: seq<byte>)
    requires start + |from| <= a.Length
    modifies a
    ensures a[..] == Splice(old(a[..]), start, from)
  {
    forall i | 0 <= i < |from| { a[start + i] := from[i]; }
  }

  /** `write_datagram_header` on the slice of `a` from `start` on. */
  method WriteDatagramHeader(a: array<byte>, start: nat, address: SocketAddr)
    requires start + DatagramHeaderLen(address) <= a.Length
    modifies a
    ensures a[..] == Splice(old(a[..]), start, DatagramBytes(Target(Ip(address.ip), address.port), []))
  {
    ghost var was := a[..];
    ghost var front: seq<byte> := [0, 0, 0];
    CopyInto(a, start, [0, 0, 0]);
    ghost var port := ToBe(address.port, 2);
    match address.ip {
      case V4(n) =>
        CopyInto(a, start + 3, [1]);
        SpliceTwice(was, start, front, [1]);
        CopyInto(a, start + 4, ToBe(n, 4));
        SpliceTwice(was, start, front + [1], ToBe(n, 4));
        CopyInto(a, start + 8, ToBe(address.port, 2));
        SpliceTwice(was, start, front + [1] + ToBe(n, 4), port);
        assert DatagramBytes(Target(Ip(address.ip), address.port), []) == front + [1] + ToBe(n, 4) + port;
      case V6(n) =>
        CopyInto(a, start + 3, [4]);
        SpliceTwice(was, start, front, [4]);
        CopyInto(a, start + 4, ToBe(n, 16));
        SpliceTwice(was, start, front + [4], ToBe(n, 16));
        CopyInto(a, start + 20, ToBe(address.port, 2));
        SpliceTwice(was, start, front + [4] + ToBe(n, 16), port);
        assert DatagramBytes(Target(Ip(address.ip), address.port), []) == front + [4] + ToBe(n, 16) + port;
    }
  }

  /** The worker's reply (src/server.rs:866, 883-888): the payload was received at offset 22;
      the header goes right in front of it, and the datagram sent is the slice that begins
      where the header does. It is the encoding of destination and payload, and is read back as
      them if the payload is not empty; the rest of the buffer, the payload included, is as
      before. */
  method FrameReply(buffer: array<byte>, length: nat, destination: SocketAddr) returns (datagram: seq<byte>)
    requires REPLY_OFFSET + length <= buffer.Length
    modifies buffer
    ensures datagram == DatagramBytes(Target(Ip(destination.ip), destination.port), old(buffer[REPLY_OFFSET..REPLY_OFFSET + length]))
    ensures ParseDatagram(datagram) ==
      if length == 0 then Err(InvalidData)
      else Ok(Parsed(Target(Ip(destination.ip), destination.port), old(buffer[REPLY_OFFSET..REPLY_OFFSET + length])))
    ensures buffer[..REPLY_OFFSET - DatagramHeaderLen(destination)] == old(buffer[..REPLY_OFFSET - DatagramHeaderLen(destination)])
    ensures buffer[REPLY_OFFSET..] == old(buffer[REPLY_OFFSET..])
  {
    ghost var was := buffer[..];
    var start := REPLY_OFFSET - DatagramHeaderLen(destination);
    WriteDatagramHeader(buffer, start, destination);
    datagram := buffer[start..REPLY_OFFSET + length];
    ghost var target := Target(Ip(destination.ip), destination.port);
    SpliceParts(was, start, DatagramBytes(target, []), REPLY_OFFSET + length);
    assert datagram == buffer[..][start..REPLY_OFFSET + length];
    assert buffer[..start] == buffer[..][..start] && buffer[REPLY_OFFSET..] == buffer[..][REPLY_OFFSET..];
    EmptyPayloadIsRefused(target, was[REPLY_OFFSET..REPLY_OFFSET + length]);
    assert DatagramBytes(target, []) + was[REPLY_OFFSET..REPLY_OFFSET + length]
        == DatagramBytes(target, was[REPLY_OFFSET..REPLY_OFFSET + length]);
  }

  /** The client's `recv` on a received packet (src/client.rs:210-222): a datagram carrying
      `data` puts exactly it at the front of the caller's buffer and leaves the rest, one that
      does not fit changes nothing, and no other packet is accepted. */
  method Recv(packet: seq<byte>, payload: array<byte>) returns (r: Result<(nat, Target), ErrorKind>)
    modifies payload
    ensures forall t: Target, data: seq<byte> {:trigger DatagramBytes(t, data)} ::
              Encodable(t) && data != [] && packet == DatagramBytes(t, data) ==>
                if |data| <= payload.Length
                then r == Ok((|data|, t)) && payload[..] == Splice(old(payload[..]), 0, data)
                else r == Err(InvalidInput)
    ensures r.Ok? ==> Encodable(r.value.1) && 0 < r.value.0 <= payload.Length
                      && packet == DatagramBytes(r.value.1, payload[..r.value.0])
    ensures r.Err? ==> payload[..] == old(payload[..])
  {
    forall t: Target, data: seq<byte> {:trigger DatagramBytes(t, data)} |
      Encodable(t) && data != [] && packet == DatagramBytes(t, data)
      ensures ParseDatagram(packet) == Ok(Parsed(t, data))
    {
      DatagramBijection(packet, t, data);
    }
    var datagram := ReadDatagram(packet);
    if datagram.Err? { return Err(datagram.error); }
    var (target, data) := datagram.value;
    DatagramBijection(packet, target, data);
    assert packet == DatagramBytes(target, data);
    if |data| > payload.Length { return Err(InvalidInput); }
    CopyInto(payload, 0, data);
    assert payload[..|data|] == payload[..][..|data|] == data;
    r := Ok((|data|, target));
    assert payload[..r.value.0] == data && r.value.1 == target;
  }
}
