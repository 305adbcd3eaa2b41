/**
 * Values that cross the boundary of a server session media: the integer widths
 * the Go code uses, RTP and RTCP packets as the (external) unmarshallers hand
 * them over, the decode errors reported to the session, and the pure decisions
 * the read handlers take before anything is dispatched.
 */
module Packets {

  datatype Option<+T> = None | Some(value: T)

  type byte = x: int | 0 <= x < 0x100
  /** Go's `uint8` is its `byte` under another name. */
  type uint8 = byte
  type uint32 = x: int | 0 <= x < 0x1_0000_0000
  type uint64 = x: int | 0 <= x < 0x1_0000_0000_0000_0000

  const Uint64Modulus: int := 0x1_0000_0000_0000_0000

  /** Largest UDP payload a listener hands over (1500-byte MTU minus 20 bytes of
      IP and 8 bytes of UDP header). A datagram read with one byte more than this
      was cut short by the listener and its real size is lost. */
  const UdpMaxPayloadSize: nat := 1472

  /** The length the listeners use as a "datagram was too big" sentinel. */
  const UdpTruncatedSize: nat := UdpMaxPayloadSize + 1

  /** `atomic.AddUint64(counter, uint64(n))`: unsigned 64-bit addition that wraps. */
  function AddUint64(counter: uint64, n: nat): (r: uint64)
    ensures counter + n < Uint64Modulus ==> r == counter + n
    ensures Uint64Modulus <= counter + n < 2 * Uint64Modulus ==> r == counter + n - Uint64Modulus
  {
    (counter + n) % Uint64Modulus
  }

  /** `time.Time.Unix()` for an instant given in nanoseconds since the epoch:
      whole seconds, rounded towards minus infinity. */
  function UnixSeconds(nanos: int): (s: int)
    ensures s * 1_000_000_000 <= nanos < s * 1_000_000_000 + 1_000_000_000
  {
    nanos / 1_000_000_000
  }

  /** The RTP header fields this component looks at, and the payload. */
  datatype RtpPacket = RtpPacket(version: nat, payloadType: uint8, sequenceNumber: nat, ssrc: uint32, payload: seq<byte>)

  /** `rtp.Packet{Header: rtp.Header{Version: 2}}`: the empty packet sent to open a firewall. */
  const EmptyRtpPacket: RtpPacket := RtpPacket(2, 0, 0, 0, [])

  /** RTCP packets, reduced to what this component distinguishes. */
  datatype RtcpPacket =
    | SenderReport(ssrc: uint32, ntpTime: nat, rtpTime: nat)
    | ReceiverReport(ssrc: uint32, reportCount: nat)
    | OtherRtcp(packetType: uint8)

  /** `rtcp.ReceiverReport{}`: the empty report sent to open a firewall. */
  const EmptyReceiverReport: RtcpPacket := ReceiverReport(0, 0)

  /** What `rtp.Packet.Unmarshal` made of a payload. */
  datatype RtpParse = RtpParseFailed(reason: string) | RtpParsed(packet: RtpPacket)

  /** What `rtcp.Unmarshal` made of a payload: one datagram or frame may hold several packets. */
  datatype RtcpParse = RtcpParseFailed(reason: string) | RtcpParsed(packets: seq<RtcpPacket>)

  /** Errors passed to the session's decode-error sink. */
  datatype DecodeError =
    | ErrServerRTPPacketTooBigUDP
    | ErrServerRTCPPacketTooBigUDP
    | ErrServerRTCPPacketTooBig(l: nat, max: nat)
    | ErrServerRTPPacketUnknownPayloadType(payloadType: uint8)
    | UnmarshalError(reason: string)

  /** The fate of one inbound RTP payload: exactly one error, or one packet to route. */
  datatype RtpVerdict = RtpRejected(err: DecodeError) | RtpAccepted(packet: RtpPacket)

  /** The fate of one inbound RTCP payload: exactly one error, or the decoded packets. */
  datatype RtcpVerdict = RtcpRejected(err: DecodeError) | RtcpAccepted(packets: seq<RtcpPacket>)

  /** Parse result first, then the payload-type lookup among the formats of the media. */
  function ClassifyRtp(known: set<uint8>, parse: RtpParse): (v: RtpVerdict)
    ensures v.RtpAccepted? <==> parse.RtpParsed? && parse.packet.payloadType in known
    ensures v.RtpAccepted? ==> v.packet == parse.packet
    ensures parse.RtpParseFailed? ==> v == RtpRejected(UnmarshalError(parse.reason))
    ensures parse.RtpParsed? && parse.packet.payloadType !in known ==>
              v == RtpRejected(ErrServerRTPPacketUnknownPayloadType(parse.packet.payloadType))
  {
    match parse
    case RtpParseFailed(reason) => RtpRejected(UnmarshalError(reason))
    case RtpParsed(pkt) =>
      if pkt.payloadType in known then RtpAccepted(pkt)
      else RtpRejected(ErrServerRTPPacketUnknownPayloadType(pkt.payloadType))
  }

  /** A UDP RTP datagram: the truncation sentinel is checked before anything is parsed. */
  function ClassifyRtpUdp(plen: nat, known: set<uint8>, parse: RtpParse): (v: RtpVerdict)
    ensures plen == UdpTruncatedSize ==> v == RtpRejected(ErrServerRTPPacketTooBigUDP)
    ensures plen != UdpTruncatedSize ==> v == ClassifyRtp(known, parse)
  {
    if plen == UdpTruncatedSize then RtpRejected(ErrServerRTPPacketTooBigUDP)
    else ClassifyRtp(known, parse)
  }

  /** A UDP RTCP datagram: only the exact sentinel length is refused for size. */
  function ClassifyRtcpUdp(plen: nat, parse: RtcpParse): (v: RtcpVerdict)
    ensures v == RtcpRejected(ErrServerRTCPPacketTooBigUDP) <==> plen == UdpTruncatedSize
    ensures v.RtcpAccepted? <==> plen != UdpTruncatedSize && parse.RtcpParsed?
    ensures v.RtcpAccepted? ==> v.packets == parse.packets
    ensures plen != UdpTruncatedSize && parse.RtcpParseFailed? ==> v == RtcpRejected(UnmarshalError(parse.reason))
  {
    if plen == UdpTruncatedSize then RtcpRejected(ErrServerRTCPPacketTooBigUDP)
    else match parse
      case RtcpParseFailed(reason) => RtcpRejected(UnmarshalError(reason))
      case RtcpParsed(packets) => RtcpAccepted(packets)
  }

  /** A TCP RTCP frame: any length above the UDP ceiling is refused, carrying that length. */
  function ClassifyRtcpTcp(plen: nat, parse: RtcpParse): (v: RtcpVerdict)
    ensures v.RtcpRejected? && v.err.ErrServerRTCPPacketTooBig? <==> plen > UdpMaxPayloadSize
    ensures plen > UdpMaxPayloadSize ==> v.err == ErrServerRTCPPacketTooBig(plen, UdpMaxPayloadSize)
    ensures v.RtcpAccepted? <==> plen <= UdpMaxPayloadSize && parse.RtcpParsed?
    ensures v.RtcpAccepted? ==> v.packets == parse.packets
    ensures plen <= UdpMaxPayloadSize && parse.RtcpParseFailed? ==> v == RtcpRejected(UnmarshalError(parse.reason))
  {
    if plen > UdpMaxPayloadSize then RtcpRejected(ErrServerRTCPPacketTooBig(plen, UdpMaxPayloadSize))
    else match parse
      case RtcpParseFailed(reason) => RtcpRejected(UnmarshalError(reason))
      case RtcpParsed(packets) => RtcpAccepted(packets)
  }
}
