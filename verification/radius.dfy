/** The packet wrapper of the server (`ClientPacket`) and the boundary to the
    RADIUS codec library. The codec itself (`radius.Parse`, `Packet.Response`,
    `Packet.Encode` and the attribute lookups) is not modelled: it enters as
    uninterpreted functions carried by a `Codec` value, and a decoded packet
    exposes only the fields the server and its plugins read. */
module Radius {
  import opened Wrappers

  type byte = b: int | 0 <= b < 0x100
  type Bytes = seq<byte>
  type uint32 = n: int | 0 <= n < 0x1_0000_0000

  /** The parts of a decoded RADIUS packet (section 5 of RFC 2865) read by the
      server and its plugins. An absent attribute is `None`. */
  datatype RadiusPacket = RadiusPacket(
    identifier: byte,
    secret: Option<Bytes>,            // `Packet.Secret`; `None` is a nil slice
    userName: Option<string>,         // User-Name
    callingStationId: Option<string>, // Calling-Station-Id
    nasIdentifier: Option<string>,    // NAS-Identifier
    nasIpAddress: Option<string>,     // NAS-IP-Address, in its textual form
    nasPort: Option<uint32>)          // NAS-Port

  datatype DecodeError = DecodeError(reason: string)
  datatype EncodeError = EncodeError(reason: string)

  /** The codec library: `parse` is `radius.Parse(buffer, secret)`, and
      `encodeReject` is `p.Response(CodeAccessReject)` followed by `Encode`. */
  datatype Codec = Codec(
    parse: (Bytes, Bytes) -> Result<RadiusPacket, DecodeError>,
    encodeReject: RadiusPacket -> Result<Bytes, EncodeError>)

  /** A UDP source address; its host part is what `net.SplitHostPort` of its
      textual form yields. */
  datatype Addr = Addr(host: string, port: nat)

  /** One received datagram: the raw bytes, the sender, and the outcome of
      the (at most one) decode attempt. */
  datatype ClientPacket = ClientPacket(
    buffer: Bytes,
    clientAddr: Option<Addr>,
    packet: Option<RadiusPacket>,
    error: Option<DecodeError>)

  /** A freshly received datagram, not yet decoded. */
  function NewClientPacket(buffer: Bytes, addr: Option<Addr>): (p: ClientPacket)
    ensures !Attempted(p)
    ensures p.buffer == buffer && p.clientAddr == addr
  {
    ClientPacket(buffer, addr, None, None)
  }

  /** A decode was attempted: it either left a packet or an error behind. */
  predicate Attempted(p: ClientPacket) {
    p.error.Some? || p.packet.Some?
  }

  /** `Context.packet`: parse the buffer with `secret` unless a decode was
      already attempted. The datagram and sender are never touched, and
      afterwards a decode has been attempted, so a second call parses
      nothing. */
  function Decode(p: ClientPacket, secret: Bytes, codec: Codec): (q: ClientPacket)
    ensures q.buffer == p.buffer && q.clientAddr == p.clientAddr
    ensures Attempted(p) ==> q == p
    ensures Attempted(q)
    ensures !Attempted(p) ==>
              (q.error.None? <==> codec.parse(p.buffer, secret).Success?)
    ensures !Attempted(p) && q.packet.Some? ==>
              codec.parse(p.buffer, secret) == Success(q.packet.value)
    ensures !Attempted(p) && q.error.Some? ==>
              codec.parse(p.buffer, secret) == Failure(q.error.value)
  {
    if p.error.None? && p.packet.None? then
      match codec.parse(p.buffer, secret)
      case Success(pkt) => p.(packet := Some(pkt), error := None)
      case Failure(e) => p.(packet := None, error := Some(e))
    else p
  }

  /** Decoding is idempotent: the second call is a no-op whatever the first
      call's outcome. */
  lemma DecodeIdempotent(p: ClientPacket, secret: Bytes, codec: Codec)
    ensures Decode(Decode(p, secret, codec), secret, codec) == Decode(p, secret, codec)
  {
  }

  /** After a decode, exactly one of packet and error is present when the
      datagram was fresh. */
  lemma DecodeFreshExclusive(p: ClientPacket, secret: Bytes, codec: Codec)
    requires !Attempted(p)
    ensures Decode(p, secret, codec).packet.Some? != Decode(p, secret, codec).error.Some?
  {
  }
}
