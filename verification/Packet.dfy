/** Packet observations (internal/model/packet.go:85-150), without the fields that no matching reads. */
module Packets {

  datatype Kind =
    | NoKind | OutboundSyn | InboundSynAck | TcpRst | HandshakeConfirmed
    | OutboundEcho | InboundEcho | TimeExceeded | Unreachable

  datatype Protocol = NoProtocol | Tcp | Icmp

  datatype Direction = NoDirection | Inbound | Outbound

  /** The zero time, or a point in time. */
  datatype Time = Zero | At(t: int)

  datatype Observation = Observation(
    id: string, sessionId: string, probeId: string, correlationId: string,
    kind: Kind, protocol: Protocol, direction: Direction,
    localAddress: string, localPort: nat, sourceAddress: string, sourcePort: nat,
    destinationAddress: string, destinationPort: nat,
    icmpType: nat, icmpCode: nat, icmpIdentifier: nat, icmpSequence: nat, probeTtl: nat, probeAttempt: int,
    quotedSourceAddress: string, quotedDestinationAddress: string, quotedDestinationPort: nat,
    quotedIcmpIdentifier: nat, quotedIcmpSequence: nat,
    processId: nat, connectionId: string, observedAt: Time)

  const BLANK: Observation :=
    Observation("", "", "", "", NoKind, NoProtocol, NoDirection, "", 0, "", 0, "", 0, 0, 0, 0, 0, 0, 0, "", "", 0, 0, 0, 0, "", Zero)

  /** `NormalizePacketObservation`; `address` is the canonical spelling of an address. */
  function Normalized(address: string -> string, o: Observation): Observation {
    o.(localAddress := address(o.localAddress), sourceAddress := address(o.sourceAddress),
       destinationAddress := address(o.destinationAddress), quotedSourceAddress := address(o.quotedSourceAddress),
       quotedDestinationAddress := address(o.quotedDestinationAddress),
       protocol :=
         if !o.protocol.NoProtocol? then o.protocol
         else if o.kind.OutboundSyn? || o.kind.InboundSynAck? || o.kind.TcpRst? || o.kind.HandshakeConfirmed? then Tcp
         else if o.kind.NoKind? then NoProtocol
         else Icmp)
  }
}
