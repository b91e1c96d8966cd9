/**
 * The packet envelope every node, gateway and relay exchanges. It mirrors
 * the protocol-buffer message: a packet id, a packet type, and one field per
 * sub-message. Dispatch reads the type field alone, so a sub-message that
 * was never set reads as its default value, as protocol buffers do.
 */
module Packets {
  import opened Cipher

  /** The packet_type enumeration; an enum value the node does not know stays representable. */
  datatype PacketType =
    | NetworkMessageType
    | AckMessageType
    | DiscoverMessageType
    | AnnounceMessageType
    | UnrecognisedType(code: int)

  /** An application message: sender, creation time, IV-prefixed ciphertext and destination. */
  datatype NetworkMessage = NetworkMessage(nodeId: string, timestamp: int, content: Bytes, destination: string)

  /** An acknowledgment of the packet whose id is messageId, sent by nodeId. */
  datatype AckMessage = AckMessage(messageId: string, nodeId: string, timestamp: int)

  /** A broadcast liveness probe. */
  datatype DiscoverMessage = DiscoverMessage(timestamp: int)

  /** A broadcast presence advertisement, also the reply to a discover. */
  datatype AnnounceMessage = AnnounceMessage(nodeId: string, timestamp: int)

  datatype Packet = Packet(
    uuid: string,
    kind: PacketType,
    network: NetworkMessage,
    ack: AckMessage,
    discover: DiscoverMessage,
    announce: AnnounceMessage)

  const NoNetwork := NetworkMessage("", 0, [], "")
  const NoAck := AckMessage("", "", 0)
  const NoDiscover := DiscoverMessage(0)
  const NoAnnounce := AnnounceMessage("", 0)

  function NetworkPacket(uuid: string, m: NetworkMessage): Packet {
    Packet(uuid, NetworkMessageType, m, NoAck, NoDiscover, NoAnnounce)
  }

  function AckPacket(uuid: string, m: AckMessage): Packet {
    Packet(uuid, AckMessageType, NoNetwork, m, NoDiscover, NoAnnounce)
  }

  function DiscoverPacket(uuid: string, m: DiscoverMessage): Packet {
    Packet(uuid, DiscoverMessageType, NoNetwork, NoAck, m, NoAnnounce)
  }

  function AnnouncePacket(uuid: string, m: AnnounceMessage): Packet {
    Packet(uuid, AnnounceMessageType, NoNetwork, NoAck, NoDiscover, m)
  }

  /** Lower-case hexadecimal, the alphabet of `uuid4().hex`. */
  predicate IsHexDigit(c: char) {
    '0' <= c <= '9' || 'a' <= c <= 'f'
  }

  /** The shape of a locally generated packet id, `uuid.uuid4().hex[:8]`. */
  predicate IsHexId(s: string) {
    |s| == 8 && forall i :: 0 <= i < |s| ==> IsHexDigit(s[i])
  }

  type HexId = s: string | IsHexId(s) witness "00000000"
}
