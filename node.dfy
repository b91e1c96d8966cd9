/**
 * What every node program is configured with, and the record of a message
 * handed to the MQTT broker.
 */
module Node {
  import opened Cipher
  import opened Packets
  import opened Codec

  /**
   * A node's id, the library functions it calls, and the random sources
   * `uuid4` and `os.urandom(16)` as oracles indexed by the number of draws
   * made so far.
   */
  datatype Config = Config(nodeId: string, codec: Codec, cipher: BlockCipher, ids: nat -> HexId, ivs: nat -> Block)

  /** A message published to the broker. */
  datatype Publication = Publication(topic: string, payload: string)

  /** Gateway to relay: packets a leaf addressed to a `+` destination. */
  const UplinkTopic := "12458Test/pub"

  /** Relay to gateway: the relay's reply packets. */
  const DownlinkTopic := "12458Test/sub"
}
