/**
 * The leaf node's protocol engine (normal_node/chat.py). Its process-wide
 * state is the set of packet ids already processed, the acknowledgment
 * ledger, and the set of node ids learned from announces; the radio log
 * records, in order, every packet handed to the transceiver.
 *
 * The behaviour is given twice: as functions on a `NodeState` value (the
 * specification, about which the lemmas are proved) and as the class
 * `LeafNode`, whose methods update fields in place as the source does and
 * are proved to follow those functions.
 */
module Leaf {
  import opened Wrappers
  import opened Cipher
  import opened Packets
  import opened Codec
  import opened Ledger
  import opened Node
  import Rylr998

  /** The node id this leaf is configured with. */
  const LeafNodeId := "FIXED178"

  datatype ErrorKind = Base64Decoding | PacketProcessing

  /** The result records the handlers and `listen_for_data` return. */
  datatype Record =
    | Sent(packetUuid: string, destination: string, content: string)
    | Received(packetUuid: string, sender: string, content: string)
    | Retransmitted(packetUuid: string)
    | Acked(packetUuid: string)
    | DiscoverHandled(packetUuid: string)
    | AnnounceHandled(packetUuid: string, nodeId: string)
    | UnknownPacket(packetUuid: string)
    | Error(error: ErrorKind)
    | OtherResponse(message: string)
    | UnknownItem(message: string)
    | DiscoverSent(packetUuid: string)
    | AnnounceSent(packetUuid: string)

  /** An element of the list the transceiver driver returns. */
  datatype RxItem = FrameItem(frame: Rylr998.RcvFrame) | TextItem(text: string) | OtherItem(text: string)

  datatype NodeState = NodeState(
    seen: set<string>,
    acks: map<string, bool>,
    known: set<string>,
    radio: seq<Packet>,
    draws: nat)

  const Initial := NodeState({}, map[], {}, [], 0)

  /** What a handler does: return a result (possibly None) or raise. */
  datatype Reply = Returned(result: Option<Record>) | Raised(fault: DecryptFault)

  /** Hand a packet to the radio, consuming one draw of the random sources. */
  function Emit(s: NodeState, p: Packet): NodeState {
    s.(radio := s.radio + [p], draws := s.draws + 1)
  }

  function SendAckStep(c: Config, s: NodeState, received: Packet, now: int): NodeState {
    Emit(s, AckPacket(c.ids(s.draws), AckMessage(received.uuid, c.nodeId, now)))
  }

  function SendAnnounceStep(c: Config, s: NodeState, now: int): (NodeState, Record) {
    var id := c.ids(s.draws);
    (Emit(s, AnnouncePacket(id, AnnounceMessage(c.nodeId, now))), AnnounceSent(id))
  }

  function SendDiscoverStep(c: Config, s: NodeState, now: int): (NodeState, Record) {
    var id := c.ids(s.draws);
    (Emit(s, DiscoverPacket(id, DiscoverMessage(now))), DiscoverSent(id))
  }

  function SendMessageStep(c: Config, s: NodeState, destination: string, content: string, now: int): (NodeState, Record) {
    var id := c.ids(s.draws);
    var m := NetworkMessage(c.nodeId, now, EncryptText(c.codec, c.cipher, c.ivs(s.draws), content), destination);
    (Emit(s, NetworkPacket(id, m)).(acks := Register(s.acks, id)), Sent(id, destination, content))
  }

  function NetworkStep(c: Config, s: NodeState, p: Packet, now: int): (NodeState, Reply) {
    if p.network.destination != c.nodeId then (s, Returned(Some(Retransmitted(p.uuid))))
    else
      match DecryptText(c.codec, c.cipher, p.network.content)
      case Err(e) => (s, Raised(e))
      case Ok(text) => (SendAckStep(c, s, p, now), Returned(Some(Received(p.uuid, p.network.nodeId, text))))
  }

  function AckStep(s: NodeState, p: Packet): (NodeState, Reply) {
    var id := p.ack.messageId;
    (s.(acks := Acknowledge(s.acks, id)), Returned(if id in s.acks then Some(Acked(id)) else None))
  }

  function DiscoverStep(c: Config, s: NodeState, p: Packet, now: int): (NodeState, Reply) {
    (SendAnnounceStep(c, s, now).0, Returned(Some(DiscoverHandled(p.uuid))))
  }

  function AnnounceStep(s: NodeState, p: Packet): (NodeState, Reply) {
    var id := p.announce.nodeId;
    (s.(known := s.known + {id}), Returned(Some(AnnounceHandled(p.uuid, id))))
  }

  function DispatchStep(c: Config, s: NodeState, p: Packet, now: int): (NodeState, Reply) {
    match p.kind
    case NetworkMessageType => NetworkStep(c, s, p, now)
    case AckMessageType => AckStep(s, p)
    case DiscoverMessageType => DiscoverStep(c, s, p, now)
    case AnnounceMessageType => AnnounceStep(s, p)
    case UnrecognisedType(_) => (s, Returned(Some(UnknownPacket(p.uuid))))
  }

  /**
   * The decoding at the top of the loop body: padding repair, base64 (a
   * non-ASCII string is a ValueError, not a base64 error), then parsing.
   */
  function DecodeFrame(c: Codec, data: string): Result<Packet, ErrorKind> {
    var encoded := RestorePadding(data);
    if !IsAscii(encoded) then Err(PacketProcessing)
    else
      match c.b64Decode(encoded)
      case None => Err(Base64Decoding)
      case Some(bytes) =>
        match c.parse(bytes)
        case None => Err(PacketProcessing)
        case Some(p) => Ok(p)
  }

  /** One item of the received list: what it appends to the results (0 or 1 entries) and the new state. */
  function ItemStep(c: Config, s: NodeState, item: RxItem, now: int): (NodeState, seq<Option<Record>>) {
    match item
    case TextItem(t) => (s, [Some(OtherResponse(t))])
    case OtherItem(t) => (s, [Some(UnknownItem(t))])
    case FrameItem(f) =>
      match DecodeFrame(c.codec, f.data)
      case Err(e) => (s, [Some(Error(e))])
      case Ok(p) =>
        if p.uuid in s.seen then (s, [])
        else
          var (s', reply) := DispatchStep(c, s.(seen := s.seen + {p.uuid}), p, now);
          match reply
          case Returned(r) => (s', [r])
          case Raised(_) => (s', [Some(Error(PacketProcessing))])
  }

  /** `listen_for_data` over the list the driver returned. */
  function ListenStep(c: Config, s: NodeState, items: seq<RxItem>, now: int): (NodeState, seq<Option<Record>>)
    decreases |items|
  {
    if items == [] then (s, [])
    else
      var (s1, out1) := ListenStep(c, s, items[..|items| - 1], now);
      var (s2, out2) := ItemStep(c, s1, items[|items| - 1], now);
      (s2, out1 + out2)
  }

  // ---------------------------------------------------------------------
  // Properties of the specification
  // ---------------------------------------------------------------------

  predicate Decodes(c: Config, item: RxItem, p: Packet) {
    item.FrameItem? && DecodeFrame(c.codec, item.frame.data) == Ok(p)
  }

  /** A frame whose id was already processed adds no result and changes no state. */
  lemma DuplicateIgnored(c: Config, s: NodeState, item: RxItem, p: Packet, now: int)
    requires Decodes(c, item, p) && p.uuid in s.seen
    ensures ItemStep(c, s, item, now) == (s, [])
  {
  }

  /** Frames that do not decode give one error entry and change nothing. */
  lemma UndecodableFrame(c: Config, s: NodeState, item: RxItem, now: int)
    requires item.FrameItem? && DecodeFrame(c.codec, item.frame.data).Err?
    ensures ItemStep(c, s, item, now) == (s, [Some(Error(DecodeFrame(c.codec, item.frame.data).error))])
  {
  }

  /** No handler touches the set of seen ids; it only ever grows. */
  lemma DispatchKeepsSeen(c: Config, s: NodeState, p: Packet, now: int)
    ensures DispatchStep(c, s, p, now).0.seen == s.seen
  {
  }

  /**
   * On first delivery the id is recorded and the packet is handed to the
   * handler for its type, whose state is kept; exactly one entry is added to
   * the results: the handler's result, or a packet-processing error when the
   * handler raised.
   */
  lemma FirstDeliveryRecorded(c: Config, s: NodeState, item: RxItem, p: Packet, now: int)
    requires Decodes(c, item, p) && p.uuid !in s.seen
    ensures ItemStep(c, s, item, now).0.seen == s.seen + {p.uuid}
    ensures |ItemStep(c, s, item, now).1| == 1
    ensures var (s', reply) := DispatchStep(c, s.(seen := s.seen + {p.uuid}), p, now);
      && ItemStep(c, s, item, now).0 == s'
      && ItemStep(c, s, item, now).1 == [if reply.Returned? then reply.result else Some(Error(PacketProcessing))]
  {
    DispatchKeepsSeen(c, s.(seen := s.seen + {p.uuid}), p, now);
  }

  lemma ItemSeenGrows(c: Config, s: NodeState, item: RxItem, now: int)
    ensures s.seen <= ItemStep(c, s, item, now).0.seen
  {
    if item.FrameItem? && DecodeFrame(c.codec, item.frame.data).Ok? {
      var p := DecodeFrame(c.codec, item.frame.data).value;
      DispatchKeepsSeen(c, s.(seen := s.seen + {p.uuid}), p, now);
    }
  }

  /** Processing a list in two parts is processing the first part, then the second from there. */
  lemma {:induction false} ListenAppend(c: Config, s: NodeState, xs: seq<RxItem>, ys: seq<RxItem>, now: int)
    ensures ListenStep(c, s, xs + ys, now).0 == ListenStep(c, ListenStep(c, s, xs, now).0, ys, now).0
    ensures ListenStep(c, s, xs + ys, now).1 == ListenStep(c, s, xs, now).1 + ListenStep(c, ListenStep(c, s, xs, now).0, ys, now).1
    decreases |ys|
  {
    if ys == [] {
      assert xs + ys == xs;
    } else {
      var ys' := ys[..|ys| - 1];
      assert (xs + ys)[..|xs + ys| - 1] == xs + ys';
      assert (xs + ys)[|xs + ys| - 1] == ys[|ys| - 1];
      ListenAppend(c, s, xs, ys', now);
    }
  }

  lemma {:induction false} ListenSeenGrows(c: Config, s: NodeState, items: seq<RxItem>, now: int)
    ensures s.seen <= ListenStep(c, s, items, now).0.seen
    decreases |items|
  {
    if items != [] {
      ListenSeenGrows(c, s, items[..|items| - 1], now);
      ItemSeenGrows(c, ListenStep(c, s, items[..|items| - 1], now).0, items[|items| - 1], now);
    }
  }

  lemma ListenOne(c: Config, s: NodeState, item: RxItem, now: int)
    ensures ListenStep(c, s, [item], now) == ItemStep(c, s, item, now)
  {
    assert [item][..0] == [];
    assert ListenStep(c, s, [], now) == (s, []);
    var out := ItemStep(c, s, item, now).1;
    assert [] + out == out;
  }

  /**
   * Once a packet has been processed, every later delivery of it, however
   * many other items come between, is skipped: it adds no result and
   * changes no state.
   */
  lemma LaterCopySkipped(c: Config, s: NodeState, xs: seq<RxItem>, item: RxItem, ys: seq<RxItem>, p: Packet, now: int)
    requires Decodes(c, item, p)
    ensures ListenStep(c, s, xs + [item] + ys + [item], now) == ListenStep(c, s, xs + [item] + ys, now)
  {
    var front := xs + [item] + ys;
    var (s1, out1) := ListenStep(c, s, xs, now);
    ListenAppend(c, s, xs, [item], now);
    ListenOne(c, s1, item, now);
    var s2 := ListenStep(c, s, xs + [item], now).0;
    assert s2 == ItemStep(c, s1, item, now).0;
    assert p.uuid in s2.seen by {
      if p.uuid !in s1.seen {
        FirstDeliveryRecorded(c, s1, item, p, now);
      } else {
        DuplicateIgnored(c, s1, item, p, now);
      }
    }
    ListenAppend(c, s, xs + [item], ys, now);
    ListenSeenGrows(c, s2, ys, now);
    var s3 := ListenStep(c, s, front, now).0;
    assert p.uuid in s3.seen;
    DuplicateIgnored(c, s3, item, p, now);
    assert (front + [item])[..|front + [item]| - 1] == front;
    var out3 := ListenStep(c, s, front, now).1;
    assert ListenStep(c, s, front + [item], now) == (s3, out3 + []);
    assert out3 + [] == out3;
  }

  /** Delivering the same frame twice in a row has exactly the effect of delivering it once. */
  lemma DeliveredTwice(c: Config, s: NodeState, item: RxItem, p: Packet, now: int)
    requires Decodes(c, item, p)
    ensures ListenStep(c, s, [item, item], now) == ListenStep(c, s, [item], now)
  {
    LaterCopySkipped(c, s, [], item, [], p, now);
    assert [] + [item] + [] + [item] == [item, item];
    assert [] + [item] + [] == [item];
  }

  /**
   * A network message for another node is reported as retransmitted and
   * nothing is sent: the retransmission is switched off.
   */
  lemma ForeignMessageNotSent(c: Config, s: NodeState, item: RxItem, p: Packet, now: int)
    requires Decodes(c, item, p) && p.uuid !in s.seen
    requires p.kind == NetworkMessageType && p.network.destination != c.nodeId
    ensures ItemStep(c, s, item, now) == (s.(seen := s.seen + {p.uuid}), [Some(Retransmitted(p.uuid))])
  {
  }

  /**
   * A network message for this node that decrypts is reported as received
   * from its sender, and exactly one packet is sent: an ack whose
   * message_id is the received packet id, from this node, with a fresh id.
   */
  lemma AddressedMessageAcked(c: Config, s: NodeState, item: RxItem, p: Packet, now: int, text: string)
    requires Decodes(c, item, p) && p.uuid !in s.seen
    requires p.kind == NetworkMessageType && p.network.destination == c.nodeId
    requires DecryptText(c.codec, c.cipher, p.network.content) == Ok(text)
    ensures var (s', out) := ItemStep(c, s, item, now);
      && out == [Some(Received(p.uuid, p.network.nodeId, text))]
      && |s'.radio| == |s.radio| + 1 && s'.radio[..|s.radio|] == s.radio
      && s'.radio[|s.radio|].kind == AckMessageType
      && s'.radio[|s.radio|].ack.messageId == p.uuid
      && s'.radio[|s.radio|].ack.nodeId == c.nodeId
      && IsHexId(s'.radio[|s.radio|].uuid)
      && s'.acks == s.acks && s'.known == s.known && s'.seen == s.seen + {p.uuid}
  {
    var s' := ItemStep(c, s, item, now).0;
    assert s'.radio[..|s.radio|] == s.radio;
  }

  /** A message for this node that does not decrypt is an error entry; no ack is sent, but the id stays recorded. */
  lemma AddressedMessageUndecryptable(c: Config, s: NodeState, item: RxItem, p: Packet, now: int)
    requires Decodes(c, item, p) && p.uuid !in s.seen
    requires p.kind == NetworkMessageType && p.network.destination == c.nodeId
    requires DecryptText(c.codec, c.cipher, p.network.content).Err?
    ensures ItemStep(c, s, item, now) == (s.(seen := s.seen + {p.uuid}), [Some(Error(PacketProcessing))])
  {
  }

  /**
   * An ack flips its entry to true and is reported when the id is pending
   * or acked; for an unknown id the ledger is unchanged and the result is
   * None. No key is ever added and nothing is sent.
   */
  lemma AckHandled(c: Config, s: NodeState, item: RxItem, p: Packet, now: int)
    requires Decodes(c, item, p) && p.uuid !in s.seen && p.kind == AckMessageType
    ensures var (s', out) := ItemStep(c, s, item, now);
      && s'.acks.Keys == s.acks.Keys
      && (p.ack.messageId in s.acks ==> s'.acks == s.acks[p.ack.messageId := true] && out == [Some(Acked(p.ack.messageId))])
      && (p.ack.messageId !in s.acks ==> s'.acks == s.acks && out == [None])
      && s'.radio == s.radio && s'.known == s.known
  {
  }

  /** A discover is answered by exactly one announce carrying this node's id; the discover is not relayed. */
  lemma DiscoverAnswered(c: Config, s: NodeState, item: RxItem, p: Packet, now: int)
    requires Decodes(c, item, p) && p.uuid !in s.seen && p.kind == DiscoverMessageType
    ensures var (s', out) := ItemStep(c, s, item, now);
      && out == [Some(DiscoverHandled(p.uuid))]
      && |s'.radio| == |s.radio| + 1 && s'.radio[..|s.radio|] == s.radio
      && s'.radio[|s.radio|].kind == AnnounceMessageType
      && s'.radio[|s.radio|].announce.nodeId == c.nodeId
      && s'.acks == s.acks && s'.known == s.known
  {
    var s' := ItemStep(c, s, item, now).0;
    assert s'.radio[..|s.radio|] == s.radio;
  }

  /** An announce adds its node id to the discovered set (a no-op if already known) and sends nothing. */
  lemma AnnounceRecorded(c: Config, s: NodeState, item: RxItem, p: Packet, now: int)
    requires Decodes(c, item, p) && p.uuid !in s.seen && p.kind == AnnounceMessageType
    ensures var (s', out) := ItemStep(c, s, item, now);
      && out == [Some(AnnounceHandled(p.uuid, p.announce.nodeId))]
      && s'.known == s.known + {p.announce.nodeId}
      && (p.announce.nodeId in s.known ==> s'.known == s.known)
      && s'.radio == s.radio && s'.acks == s.acks
  {
  }

  /** A packet type the node does not know is reported as unknown; only its id is recorded. */
  lemma UnknownTypeReported(c: Config, s: NodeState, item: RxItem, p: Packet, now: int)
    requires Decodes(c, item, p) && p.uuid !in s.seen && p.kind.UnrecognisedType?
    ensures ItemStep(c, s, item, now) == (s.(seen := s.seen + {p.uuid}), [Some(UnknownPacket(p.uuid))])
  {
  }

  /**
   * `send_message` sends exactly one network message with a fresh 8-hex-digit
   * id and registers exactly that id as pending; its content decrypts back
   * to the text sent.
   */
  lemma SendMessageEffect(c: Config, s: NodeState, destination: string, content: string, now: int)
    ensures var (s', r) := SendMessageStep(c, s, destination, content, now);
      && r.Sent? && IsHexId(r.packetUuid) && r.destination == destination && r.content == content
      && s'.acks.Keys == s.acks.Keys + {r.packetUuid} && !s'.acks[r.packetUuid]
      && (forall k :: k in s.acks && k != r.packetUuid ==> s'.acks[k] == s.acks[k])
      && |s'.radio| == |s.radio| + 1 && s'.radio[..|s.radio|] == s.radio
      && s'.radio[|s.radio|].uuid == r.packetUuid
      && s'.radio[|s.radio|].kind == NetworkMessageType
      && s'.radio[|s.radio|].network.nodeId == c.nodeId
      && s'.radio[|s.radio|].network.destination == destination
      && (Lawful(c.codec) && Inverts(c.cipher) ==>
            DecryptText(c.codec, c.cipher, s'.radio[|s.radio|].network.content) == Ok(content))
      && s'.seen == s.seen && s'.known == s.known
  {
    var s' := SendMessageStep(c, s, destination, content, now).0;
    assert s'.radio[..|s.radio|] == s.radio;
    if Lawful(c.codec) && Inverts(c.cipher) {
      DecryptEncryptText(c.codec, c.cipher, c.ivs(s.draws), content);
    }
  }

  /**
   * The text of a packet, with up to three trailing '=' lost on the way,
   * decodes back to the packet.
   */
  lemma DecodeTransportText(c: Codec, p: Packet, k: nat)
    requires Lawful(c)
    requires k <= 3 && k <= |TransportText(c, p)|
    requires forall i :: |TransportText(c, p)| - k <= i < |TransportText(c, p)| ==> TransportText(c, p)[i] == '='
    ensures DecodeFrame(c, TransportText(c, p)[..|TransportText(c, p)| - k]) == Ok(p)
  {
    var t := TransportText(c, p);
    RestorePaddingTolerance(t, k);
    TransportTextIsAscii(t);
  }

  // ---------------------------------------------------------------------
  // The node, with its state updated in place
  // ---------------------------------------------------------------------

  class LeafNode {
    const config: Config
    var seen: set<string>
    var acks: map<string, bool>
    var known: set<string>
    var radio: seq<Packet>
    var draws: nat

    function State(): NodeState
      reads this
    {
      NodeState(seen, acks, known, radio, draws)
    }

    /** The program's stores start empty, and its node id is the fixed `NODE_ID`. */
    constructor (codec: Codec, cipher: BlockCipher, ids: nat -> HexId, ivs: nat -> Block)
      ensures config == Config(LeafNodeId, codec, cipher, ids, ivs) && State() == Initial
    {
      config := Config(LeafNodeId, codec, cipher, ids, ivs);
      seen, acks, known, radio, draws := {}, map[], {}, [], 0;
    }

    /** `uuid.uuid4().hex[:8]`, paired with the IV of the same draw. */
    method Draw() returns (id: HexId, iv: Block)
      modifies this`draws
      ensures id == config.ids(old(draws)) && iv == config.ivs(old(draws)) && draws == old(draws) + 1
    {
      id, iv := config.ids(draws), config.ivs(draws);
      draws := draws + 1;
    }

    method SendMessage(destination: string, content: string, now: int) returns (r: Record)
      modifies this
      ensures (State(), r) == SendMessageStep(config, old(State()), destination, content, now)
    {
      var id, iv := Draw();
      var m := NetworkMessage(config.nodeId, now, EncryptText(config.codec, config.cipher, iv, content), destination);
      radio := radio + [NetworkPacket(id, m)];
      acks := acks[id := false];
      r := Sent(id, destination, content);
    }

    method SendAck(received: Packet, now: int)
      modifies this
      ensures State() == SendAckStep(config, old(State()), received, now)
    {
      var id, _ := Draw();
      radio := radio + [AckPacket(id, AckMessage(received.uuid, config.nodeId, now))];
    }

    /** Switched off: it returns before sending anything. */
    method RetransmitPacket(p: Packet)
      ensures radio == old(radio)
    {
    }

    method SendDiscoverMessage(now: int) returns (r: Record)
      modifies this
      ensures (State(), r) == SendDiscoverStep(config, old(State()), now)
    {
      var id, _ := Draw();
      radio := radio + [DiscoverPacket(id, DiscoverMessage(now))];
      r := DiscoverSent(id);
    }

    method SendAnnounceMessage(now: int) returns (r: Record)
      modifies this
      ensures (State(), r) == SendAnnounceStep(config, old(State()), now)
    {
      var id, _ := Draw();
      radio := radio + [AnnouncePacket(id, AnnounceMessage(config.nodeId, now))];
      r := AnnounceSent(id);
    }

    method ProcessNetworkMessage(p: Packet, now: int) returns (reply: Reply)
      modifies this
      ensures (State(), reply) == NetworkStep(config, old(State()), p, now)
    {
      if p.network.destination != config.nodeId {
        reply := Returned(Some(Retransmitted(p.uuid)));
      } else {
        var decrypted := DecryptText(config.codec, config.cipher, p.network.content);
        if decrypted.Err? {
          reply := Raised(decrypted.error);
        } else {
          SendAck(p, now);
          reply := Returned(Some(Received(p.uuid, p.network.nodeId, decrypted.value)));
        }
      }
    }

    method ProcessAckMessage(p: Packet) returns (result: Option<Record>)
      modifies this
      ensures (State(), Returned(result)) == AckStep(old(State()), p)
    {
      var id := p.ack.messageId;
      result := None;
      if id in acks {
        acks := acks[id := true];
        result := Some(Acked(id));
      }
    }

    method ProcessDiscoverMessage(p: Packet, now: int) returns (r: Record)
      modifies this
      ensures (State(), Returned(Some(r))) == DiscoverStep(config, old(State()), p, now)
    {
      var _ := SendAnnounceMessage(now);
      r := DiscoverHandled(p.uuid);
    }

    method ProcessAnnounceMessage(p: Packet) returns (r: Record)
      modifies this
      ensures (State(), Returned(Some(r))) == AnnounceStep(old(State()), p)
    {
      var id := p.announce.nodeId;
      if id !in known {
        known := known + {id};
      } else {
        assert known + {id} == known;
      }
      RetransmitPacket(p);
      r := AnnounceHandled(p.uuid, id);
    }

    method Dispatch(p: Packet, now: int) returns (reply: Reply)
      modifies this
      ensures (State(), reply) == DispatchStep(config, old(State()), p, now)
    {
      match p.kind {
        case NetworkMessageType =>
          reply := ProcessNetworkMessage(p, now);
        case AckMessageType =>
          var r := ProcessAckMessage(p);
          reply := Returned(r);
        case DiscoverMessageType =>
          var r := ProcessDiscoverMessage(p, now);
          reply := Returned(Some(r));
        case AnnounceMessageType =>
          var r := ProcessAnnounceMessage(p);
          reply := Returned(Some(r));
        case UnrecognisedType(_) =>
          reply := Returned(Some(UnknownPacket(p.uuid)));
      }
    }

    /** The body of the loop in `listen_for_data`, for one item. */
    method HandleItem(item: RxItem, now: int) returns (out: seq<Option<Record>>)
      modifies this
      ensures (State(), out) == ItemStep(config, old(State()), item, now)
    {
      match item {
        case TextItem(t) =>
          out := [Some(OtherResponse(t))];
        case OtherItem(t) =>
          out := [Some(UnknownItem(t))];
        case FrameItem(f) =>
          var decoded := DecodeFrame(config.codec, f.data);
          if decoded.Err? {
            out := [Some(Error(decoded.error))];
          } else if decoded.value.uuid in seen {
            out := [];
          } else {
            var p := decoded.value;
            seen := seen + {p.uuid};
            var reply := Dispatch(p, now);
            if reply.Returned? {
              out := [reply.result];
            } else {
              out := [Some(Error(PacketProcessing))];
            }
          }
      }
    }

    method ListenForData(items: seq<RxItem>, now: int) returns (processed: seq<Option<Record>>)
      modifies this
      ensures (State(), processed) == ListenStep(config, old(State()), items, now)
    {
      processed := [];
      var i := 0;
      while i < |items|
        invariant 0 <= i <= |items|
        invariant (State(), processed) == ListenStep(config, old(State()), items[..i], now)
      {
        var out := HandleItem(items[i], now);
        processed := processed + out;
        assert items[..i + 1][..i] == items[..i];
        i := i + 1;
      }
      assert items[..|items|] == items;
    }

    /** `list(discovered_nodes)`: every discovered node exactly once, in no particular order. */
    method GetDiscoveredNodes() returns (nodes: seq<string>)
      ensures forall n :: n in nodes <==> n in known
      ensures forall i, j :: 0 <= i < j < |nodes| ==> nodes[i] != nodes[j]
    {
      nodes := [];
      var rest := known;
      while rest != {}
        invariant rest <= known
        invariant forall n :: n in nodes <==> n in known - rest
        invariant forall i, j :: 0 <= i < j < |nodes| ==> nodes[i] != nodes[j]
        decreases |rest|
      {
        var n :| n in rest;
        assert n !in nodes;
        var before := nodes;
        nodes := nodes + [n];
        assert forall k :: 0 <= k < |before| ==> nodes[k] == before[k] != n;
        rest := rest - {n};
      }
    }
  }
}
